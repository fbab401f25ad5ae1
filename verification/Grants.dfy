/** Granted rules: how a declared set resolves against its issuer into the sealed one. */
module Grants {
  import opened Vocabulary
  import opened Syntax
  import opened Rules
  import opened StoredRules

  // --------------------------------------------------------------- behaviours

  predicate AsksAboutTheActor(b: Behaviour) { b.Mint? || b.Burn? || b.Halt? || b.Recall? }

  predicate RestrictsMovement(b: Behaviour) { b.Withdraw? || b.Deposit? || b.Halt? }

  predicate ReadsClaimsOnly(rule: StoredRule) { forall leaf <- Leaves(rule) :: leaf.ClaimLeaf? }

  /** The constant that says what an absent entry already says. */
  function Absence(b: Behaviour): StoredRule { if AsksAboutTheActor(b) then Never() else Always() }

  /** Why a behaviour does not admit a rule, or nothing if it does. */
  function Refuses(b: Behaviour, rule: StoredRule): Option<GrantsError> {
    if AsksAboutTheActor(b) && !ReadsClaimsOnly(rule) then Some(WrongQuestion(b))
    else if rule == Absence(b) then Some(RestatesAbsence(b))
    else None
  }

  /** The rule an entry's bytes decode to. */
  function DecodeEntry(entry: StoredRule): Result<StoredRule, ()> {
    if Decodes(entry) then Ok(entry) else Err(())
  }

  /** What an entry demands of a frame speaking as `speaking`, or nothing. */
  function Demanded(b: Behaviour, entry: StoredRule, speaking: Option<Claim>): Result<Option<StoredRule>, ()> {
    var rule :- DecodeEntry(entry);
    var claims := ClaimsOnly(rule);
    if AsksAboutTheActor(b) && speaking.Some? && claims.Some? && SatisfiedBy(claims.value, [speaking.value])
    then Ok(None)
    else Ok(Some(rule))
  }

  /** An entry is subtracted exactly where it asks the actor for claims alone and
      the frame's own claim, beside any evidence whatever, meets it; and otherwise demanded whole. */
  lemma {:induction false} SubtractedEntriesAreMet(b: Behaviour, entry: StoredRule, own: Claim)
    requires Decodes(entry)
    ensures Demanded(b, entry, None) == Ok(Some(entry))
    ensures Demanded(b, entry, Some(own)) in {Ok(None), Ok(Some(entry))}
    ensures Demanded(b, entry, Some(own)) == Ok(None) <==>
      && b !in {Withdraw, Deposit}
      && ClaimsOnly(entry).Some?
      && forall evidence: seq<Claim> :: SatisfiedBy(ClaimsOnly(entry).value, evidence + [own])
  {
    if ClaimsOnly(entry).Some? {
      var claims := ClaimsOnly(entry).value;
      if SatisfiedBy(claims, [own]) {
        forall evidence: seq<Claim> ensures SatisfiedBy(claims, evidence + [own]) {
          SatisfactionIsMonotone(claims, [own], evidence + [own]);
        }
      } else {
        var none: seq<Claim> := [];
        assert none + [own] == [own];
        assert !SatisfiedBy(claims, none + [own]);
      }
    }
  }

  // ------------------------------------------------------------ the sealed set

  predicate Ascending(entries: ResourceGrants) {
    forall i, j :: 0 <= i < j < |entries| ==> entries[i].behaviour.Rank() < entries[j].behaviour.Rank()
  }

  function Behaviours(entries: ResourceGrants): set<Behaviour> {
    set entry <- entries :: entry.behaviour
  }

  function Declared(grants: GrantsExpr): set<Behaviour> {
    set entry <- grants :: entry.behaviour
  }

  /** The list with `b` granted `rule`, whatever was there replaced. */
  function Granting(entries: ResourceGrants, b: Behaviour, rule: StoredRule): ResourceGrants {
    if entries == [] || b.Rank() < entries[0].behaviour.Rank() then [SealedEntry(b, rule)] + entries
    else if entries[0].behaviour == b then [SealedEntry(b, rule)] + entries[1..]
    else [entries[0]] + Granting(entries[1..], b, rule)
  }

  /** Granting gives `b` the rule and leaves every other entry alone. */
  lemma {:induction false} GrantingMembers(entries: ResourceGrants, b: Behaviour, rule: StoredRule, entry: SealedEntry)
    requires Ascending(entries)
    ensures entry in Granting(entries, b, rule) <==>
      entry == SealedEntry(b, rule) || (entry in entries && entry.behaviour != b)
  {
    if entries != [] {
      var first, rest := entries[0], entries[1..];
      assert entries == [first] + rest;
      if b.Rank() < first.behaviour.Rank() {
        assert forall i :: 0 <= i < |entries| ==> first.behaviour.Rank() <= entries[i].behaviour.Rank();
      } else if first.behaviour == b {
        assert forall i :: 0 <= i < |rest| ==> rest[i] == entries[i + 1];
      } else {
        GrantingMembers(rest, b, rule, entry);
      }
    }
  }

  /** Granting keeps the list ascending. */
  lemma {:induction false} GrantingAscends(entries: ResourceGrants, b: Behaviour, rule: StoredRule)
    requires Ascending(entries)
    ensures Ascending(Granting(entries, b, rule))
  {
    if entries != [] && b.Rank() >= entries[0].behaviour.Rank() && entries[0].behaviour != b {
      var first, rest := entries[0], entries[1..];
      GrantingAscends(rest, b, rule);
      var granted := Granting(rest, b, rule);
      forall j | 0 <= j < |granted| ensures first.behaviour.Rank() < granted[j].behaviour.Rank() {
        GrantingMembers(rest, b, rule, granted[j]);
        assert first.behaviour.Rank() != b.Rank();
      }
      assert Granting(entries, b, rule) == [first] + granted;
    }
  }

  /** The sorted list an issuer's grants are kept in. */
  class GrantTable {
    var entries: ResourceGrants

    constructor ()
      ensures entries == []
    {
      entries := [];
    }

    /** Where `b` sits, or where it would be inserted. */
    method Search(b: Behaviour) returns (found: bool, index: nat)
      requires Ascending(entries)
      ensures index <= |entries|
      ensures forall i :: 0 <= i < index ==> entries[i].behaviour.Rank() < b.Rank()
      ensures found ==> index < |entries| && entries[index].behaviour == b
      ensures !found ==> forall i :: index <= i < |entries| ==> b.Rank() < entries[i].behaviour.Rank()
    {
      var lo, hi := 0, |entries|;
      while lo < hi
        invariant 0 <= lo <= hi <= |entries|
        invariant forall i :: 0 <= i < lo ==> entries[i].behaviour.Rank() < b.Rank()
        invariant forall i :: hi <= i < |entries| ==> b.Rank() < entries[i].behaviour.Rank()
      {
        var mid := (lo + hi) / 2;
        if entries[mid].behaviour == b {
          return true, mid;
        } else if entries[mid].behaviour.Rank() < b.Rank() {
          lo := mid + 1;
        } else {
          assert entries[mid].behaviour.Rank() != b.Rank();
          hi := mid;
        }
      }
      return false, lo;
    }

    /** Grant `rule` for `b`, replacing what was there. */
    method Set(b: Behaviour, rule: StoredRule)
      requires Ascending(entries)
      modifies this
      ensures entries == Granting(old(entries), b, rule)
      ensures Ascending(entries)
    {
      var found, index := Search(b);
      GrantingAt(entries, b, rule, index, found);
      GrantingAscends(entries, b, rule);
      if found {
        entries := entries[index := SealedEntry(b, rule)];
      } else {
        entries := entries[..index] + [SealedEntry(b, rule)] + entries[index..];
      }
    }
  }

  /** What an in-place insertion at the searched index leaves. */
  lemma {:induction false} GrantingAt(entries: ResourceGrants, b: Behaviour, rule: StoredRule, index: nat, found: bool)
    requires index <= |entries|
    requires forall i :: 0 <= i < index ==> entries[i].behaviour.Rank() < b.Rank()
    requires found ==> index < |entries| && entries[index].behaviour == b
    requires !found && index < |entries| ==> b.Rank() < entries[index].behaviour.Rank()
    ensures found ==> Granting(entries, b, rule) == entries[index := SealedEntry(b, rule)]
    ensures !found ==> Granting(entries, b, rule) == entries[..index] + [SealedEntry(b, rule)] + entries[index..]
    decreases index
  {
    var put := SealedEntry(b, rule);
    if index == 0 {
      if found {
        assert Granting(entries, b, rule) == [put] + entries[1..] == entries[0 := put];
      } else {
        assert Granting(entries, b, rule) == [put] + entries == entries[..0] + [put] + entries[0..];
      }
    } else {
      var first, rest := entries[0], entries[1..];
      assert first.behaviour.Rank() < b.Rank();
      GrantingAt(rest, b, rule, index - 1, found);
      assert Granting(entries, b, rule) == [first] + Granting(rest, b, rule);
      if found {
        assert [first] + rest[index - 1 := put] == entries[index := put];
      } else {
        assert [first] + (rest[..index - 1] + [put] + rest[index - 1..]) == entries[..index] + [put] + entries[index..];
      }
    }
  }

  predicate SetRestrictsMovement(entries: ResourceGrants) {
    exists entry <- entries :: RestrictsMovement(entry.behaviour)
  }

  /** The class an address sealing these grants carries. */
  function ClassOf(entries: ResourceGrants): AddressClass {
    if SetRestrictsMovement(entries) then Restricted else Resource
  }

  /** What a resource's address is the hash of: its issuer, its kind, a commitment to its rules
      and what tells it from the issuer's others. */
  function ResourceParts(
      seam: Seam, issuer: Address, kind: ResourceKind, rules: ResourceGrants, material: seq<Bytes>): seq<Bytes>
  {
    [issuer.ToBytes(), [kind.Tag()], seam.hash(GrantsDomain, [seam.encodeGrants(rules)])] + material
  }

  /** The address of a resource sealing `rules`, under the instance issuing it. */
  function ResourceAddressOf(seam: Seam, issuer: Address, kind: ResourceKind,
                             rules: ResourceGrants, material: seq<Bytes>): (r: ResourceAddr)
    ensures r.class_ == Restricted <==> SetRestrictsMovement(rules)
  {
    var digest := seam.hash(ResourceDomain, ResourceParts(seam, issuer, kind, rules, material));
    Address(Seam.Lead(digest, 31), ClassOf(rules))
  }

  // --------------------------------------------------------------- resolution

  /** The instance a resource is issued by, and the configuration its address commits. */
  datatype Issuer = Issuer(seam: Seam, instance: CallTarget, config: seq<Value>)

  function Configured(issuer: Issuer, slot: Word32): Result<Claim, GrantsError> {
    if slot >= |issuer.config| then Err(NoSuchField(slot))
    else
      match ClaimOf(issuer.config[slot])
      case None => Err(NotAClaim(slot))
      case Some(claim) => Ok(claim)
  }

  /** Resolve a declared set at a position in the badge chain. */
  function ResolveLink(grants: GrantsExpr, issuer: Issuer, link: nat): Result<ResourceGrants, GrantsError>
    decreases grants, 0
  {
    if grants == [] then Ok([])
    else
      var before :- ResolveLink(grants[..|grants| - 1], issuer, link);
      var last := grants[|grants| - 1];
      var rule :- ResolveEntry(last, issuer, link);
      Ok(Granting(before, last.behaviour, rule))
  }

  /** One entry, resolved, admitted by its behaviour and held to the caps. */
  function ResolveEntry(entry: GrantEntry, issuer: Issuer, link: nat): Result<StoredRule, GrantsError>
    decreases entry, 0
  {
    var stored :- ResolveRule(entry.rule, entry.behaviour, issuer, link);
    var refusal := Refuses(entry.behaviour, stored);
    if refusal.Some? then Err(refusal.value)
    else if !WithinCaps(stored, 0) then Err(PastTheCaps)
    else if !Encodes(stored) then Err(PastTheCaps)
    else Ok(stored)
  }

  function ResolveRule(rule: Rule<GrantSubject>, b: Behaviour, issuer: Issuer, link: nat)
    : Result<StoredRule, GrantsError>
    decreases rule, 0
  {
    match rule
    case Require(subject) =>
      if AsksAboutTheActor(b) then
        var claim :- ResolveClaim(subject, issuer, link);
        Ok(Require(ClaimLeaf(claim)))
      else ResolveHolding(subject, issuer, link)
    case CountOf(count, rules) =>
      var resolved :- ResolveRules(rules, b, issuer, link);
      Ok(CountOf(count, resolved))
  }

  function ResolveRules(rules: seq<Rule<GrantSubject>>, b: Behaviour, issuer: Issuer, link: nat)
    : (r: Result<seq<StoredRule>, GrantsError>)
    ensures r.Ok? ==> |r.value| == |rules|
    ensures r.Ok? ==> forall i :: 0 <= i < |rules| ==> ResolveRule(rules[i], b, issuer, link) == Ok(r.value[i])
    decreases rules, 0
  {
    if rules == [] then Ok([])
    else
      var first :- ResolveRule(rules[0], b, issuer, link);
      var rest :- ResolveRules(rules[1..], b, issuer, link);
      Ok([first] + rest)
  }

  /** An actor question seals a claim, whatever its subject. */
  function ResolveClaim(subject: GrantSubject, issuer: Issuer, link: nat): Result<Claim, GrantsError>
    decreases subject, 0
  {
    match subject
    case IssuerSelf => Ok(Claim(issuer.instance, None))
    case IssuerBadge(mark, kind, grants) =>
      var badge :- SelfBadge(kind, mark, grants, issuer, link);
      Ok(Claim(badge, None))
    case IssuerInstance(mark, id, grants) =>
      var badge :- SelfBadge(NonFungible, mark, grants, issuer, link);
      Ok(Claim(badge, Some(id)))
    case IssuerConfig(slot) => Configured(issuer, slot)
  }

  /** A holder question seals a holding where the subject can be held, and a claim where it cannot. */
  function ResolveHolding(subject: GrantSubject, issuer: Issuer, link: nat): Result<StoredRule, GrantsError>
    decreases subject, 0
  {
    match subject
    case IssuerSelf => Ok(Require(ClaimLeaf(Claim(issuer.instance, None))))
    case IssuerBadge(mark, kind, grants) =>
      var badge :- SelfBadge(kind, mark, grants, issuer, link);
      Ok(Require(Held(badge, if kind.Fungible? then Balance else AnyInstance)))
    case IssuerInstance(mark, id, grants) =>
      var badge :- SelfBadge(NonFungible, mark, grants, issuer, link);
      Ok(Require(Held(badge, Instance(id))))
    case IssuerConfig(slot) =>
      var named :- Configured(issuer, slot);
      match named.Badge()
      case None => Ok(Require(ClaimLeaf(named)))
      case Some(badge) =>
        match named.instance
        case Some(id) => Ok(Require(Held(badge, Instance(id))))
        case None => Ok(CountOf(1, [Require(Held(badge, Balance)), Require(Held(badge, AnyInstance))]))
  }

  /** A badge the issuer also issues, at the address its own granted rules derive. */
  function SelfBadge(kind: ResourceKind, mark: Bytes, grants: GrantsExpr, issuer: Issuer, link: nat)
    : Result<ResourceAddr, GrantsError>
    decreases grants, 1
  {
    if link > 0 then Err(BadgeChainTooDeep)
    else
      var rules :- ResolveLink(grants, issuer, link + 1);
      Ok(ResourceAddressOf(issuer.seam, issuer.instance, kind, rules, [issuer.seam.encode(VBytes(mark))]))
  }

  function Resolve(grants: GrantsExpr, issuer: Issuer): Result<ResourceGrants, GrantsError> {
    ResolveLink(grants, issuer, 0)
  }

  /** The loop that fills the sealed set in place. */
  method ResolveInto(grants: GrantsExpr, issuer: Issuer, link: nat) returns (r: Result<ResourceGrants, GrantsError>)
    ensures r == ResolveLink(grants, issuer, link)
  {
    var table := new GrantTable();
    for i := 0 to |grants|
      invariant Ascending(table.entries)
      invariant ResolveLink(grants[..i], issuer, link) == Ok(table.entries)
    {
      assert grants[..i + 1][..i] == grants[..i];
      var entry := grants[i];
      var stored := ResolveRule(entry.rule, entry.behaviour, issuer, link);
      if stored.Err? {
        RefusedPrefix(grants, issuer, link, i);
        return Err(stored.error);
      }
      var refusal := Refuses(entry.behaviour, stored.value);
      if refusal.Some? {
        RefusedPrefix(grants, issuer, link, i);
        return Err(refusal.value);
      }
      if !WithinCaps(stored.value, 0) {
        RefusedPrefix(grants, issuer, link, i);
        return Err(PastTheCaps);
      }
      if !Encodes(stored.value) {
        RefusedPrefix(grants, issuer, link, i);
        return Err(PastTheCaps);
      }
      table.Set(entry.behaviour, stored.value);
    }
    assert grants[..|grants|] == grants;
    r := Ok(table.entries);
  }

  /** The first refused entry decides the whole set. */
  lemma {:induction false} RefusedPrefix(grants: GrantsExpr, issuer: Issuer, link: nat, i: nat)
    requires i < |grants|
    requires ResolveLink(grants[..i], issuer, link).Ok?
    requires ResolveEntry(grants[i], issuer, link).Err?
    ensures ResolveLink(grants, issuer, link) == Err(ResolveEntry(grants[i], issuer, link).error)
    decreases |grants|
  {
    var shorter := grants[..|grants| - 1];
    if i < |grants| - 1 {
      assert shorter[..i] == grants[..i];
      RefusedPrefix(shorter, issuer, link, i);
    }
  }

  // ------------------------------------------------- what a resolved set holds

  /** What every sealed entry is, whoever sealed it. */
  predicate Usable(entry: SealedEntry) {
    && DecodeEntry(entry.rule) == Ok(entry.rule)
    && (AsksAboutTheActor(entry.behaviour) ==> ReadsClaimsOnly(entry.rule))
    && entry.rule != Absence(entry.behaviour)
  }

  lemma {:induction false} GrantedBehaviours(entries: ResourceGrants, b: Behaviour, rule: StoredRule)
    requires Ascending(entries)
    ensures Behaviours(Granting(entries, b, rule)) == Behaviours(entries) + {b}
  {
    var granted := Granting(entries, b, rule);
    forall x ensures x in Behaviours(granted) <==> x in Behaviours(entries) || x == b {
      GrantingMembers(entries, b, rule, SealedEntry(b, rule));
      forall entry ensures entry in granted <==>
          entry == SealedEntry(b, rule) || (entry in entries && entry.behaviour != b) {
        GrantingMembers(entries, b, rule, entry);
      }
    }
  }

  /** The last declared entry is granted over what the others resolved to. */
  lemma {:induction false} ResolvesLast(shorter: GrantsExpr, last: GrantEntry, issuer: Issuer, link: nat)
    requires ResolveLink(shorter + [last], issuer, link).Ok?
    ensures ResolveLink(shorter, issuer, link).Ok? && ResolveEntry(last, issuer, link).Ok?
    ensures ResolveLink(shorter + [last], issuer, link).value ==
            Granting(ResolveLink(shorter, issuer, link).value, last.behaviour, ResolveEntry(last, issuer, link).value)
  {
    hide ResolveEntry, Granting;
    assert (shorter + [last])[..|shorter|] == shorter;
  }

  /** An entry that resolves is one whose bytes decode back. */
  lemma {:induction false} ResolvedEntriesAreUsable(entry: GrantEntry, issuer: Issuer, link: nat)
    requires ResolveEntry(entry, issuer, link).Ok?
    ensures Usable(SealedEntry(entry.behaviour, ResolveEntry(entry, issuer, link).value))
  {
    hide ResolveRule, WithinCaps, Encodes, Decodes, InstanceTooDeep;
    WrittenIsReadBack(ResolveEntry(entry, issuer, link).value);
  }

  lemma {:induction false} DeclaredLast(shorter: GrantsExpr, last: GrantEntry)
    ensures Declared(shorter + [last]) == Declared(shorter) + {last.behaviour}
  {
    assert last in shorter + [last];
  }

  /** A resolved set is ordered, holds exactly the declared behaviours, and every entry is usable. */
  lemma {:induction false} ResolvedSetsAreUsable(grants: GrantsExpr, issuer: Issuer, link: nat)
    requires ResolveLink(grants, issuer, link).Ok?
    ensures Ascending(ResolveLink(grants, issuer, link).value)
    ensures Behaviours(ResolveLink(grants, issuer, link).value) == Declared(grants)
    ensures forall entry <- ResolveLink(grants, issuer, link).value :: Usable(entry)
    decreases |grants|
  {
    if grants != [] {
      hide ResolveLink, ResolveEntry, Granting, Usable, Ascending, Behaviours, Declared;
      var shorter, last := grants[..|grants| - 1], grants[|grants| - 1];
      assert grants == shorter + [last];
      ResolvesLast(shorter, last, issuer, link);
      ResolvedSetsAreUsable(shorter, issuer, link);
      var before := ResolveLink(shorter, issuer, link).value;
      var rule := ResolveEntry(last, issuer, link).value;
      GrantingAscends(before, last.behaviour, rule);
      GrantedBehaviours(before, last.behaviour, rule);
      DeclaredLast(shorter, last);
      ResolvedEntriesAreUsable(last, issuer, link);
      forall entry | entry in Granting(before, last.behaviour, rule) ensures Usable(entry) {
        GrantingMembers(before, last.behaviour, rule, entry);
      }
    }
  }

  /** The address class says exactly whether a movement-restricting behaviour was declared. */
  lemma {:induction false} ClassFollowsTheDeclaration(
      grants: GrantsExpr, issuer: Issuer, kind: ResourceKind, material: seq<Bytes>)
    requires Resolve(grants, issuer).Ok?
    ensures ResourceAddressOf(issuer.seam, issuer.instance, kind, Resolve(grants, issuer).value, material).class_ ==
            Restricted
      <==> exists entry <- grants :: entry.behaviour in {Withdraw, Deposit, Halt}
  {
    ResolvedSetsAreUsable(grants, issuer, 0);
    var sealed := Resolve(grants, issuer).value;
    if SetRestrictsMovement(sealed) {
      var entry :| entry in sealed && RestrictsMovement(entry.behaviour);
      assert entry.behaviour in Declared(grants);
    }
    if entry :| entry in grants && entry.behaviour in {Withdraw, Deposit, Halt} {
      assert entry.behaviour in Behaviours(sealed);
    }
  }

  // ------------------------------------------------------------ the badge chain

  /** How many badges deep a declared set nests. */
  function BadgeDepth(grants: GrantsExpr): nat
    decreases grants, 0
  {
    if grants == [] then 0
    else Max(BadgeDepth(grants[..|grants| - 1]), EntryBadgeDepth(grants[|grants| - 1]))
  }

  function EntryBadgeDepth(entry: GrantEntry): nat
    decreases entry, 0
  {
    RuleBadgeDepth(entry.rule)
  }

  function RuleBadgeDepth(rule: Rule<GrantSubject>): nat
    decreases rule, 0
  {
    match rule
    case Require(subject) => SubjectBadgeDepth(subject)
    case CountOf(_, rules) => RulesBadgeDepth(rules)
  }

  function RulesBadgeDepth(rules: seq<Rule<GrantSubject>>): nat
    decreases rules, 0
  {
    if rules == [] then 0 else Max(RuleBadgeDepth(rules[0]), RulesBadgeDepth(rules[1..]))
  }

  function SubjectBadgeDepth(subject: GrantSubject): nat
    decreases subject, 0
  {
    match subject
    case IssuerBadge(_, _, grants) => 1 + BadgeDepth(grants)
    case IssuerInstance(_, _, grants) => 1 + BadgeDepth(grants)
    case _ => 0
  }

  function Max(a: nat, b: nat): nat { if a < b then b else a }

  /** A set that resolves folds at most one badge beneath it. */
  lemma {:induction false} BadgeChainIsOneLink(grants: GrantsExpr, issuer: Issuer, link: nat)
    requires ResolveLink(grants, issuer, link).Ok?
    ensures BadgeDepth(grants) <= (if link == 0 then 1 else 0)
    decreases grants, 0
  {
    if grants != [] {
      BadgeChainIsOneLink(grants[..|grants| - 1], issuer, link);
      BadgeChainOfEntry(grants[|grants| - 1], issuer, link);
    }
  }

  lemma {:induction false} BadgeChainOfEntry(entry: GrantEntry, issuer: Issuer, link: nat)
    requires ResolveEntry(entry, issuer, link).Ok?
    ensures EntryBadgeDepth(entry) <= (if link == 0 then 1 else 0)
    decreases entry, 0
  {
    BadgeChainOfRule(entry.rule, entry.behaviour, issuer, link);
  }

  lemma {:induction false} BadgeChainOfRule(rule: Rule<GrantSubject>, b: Behaviour, issuer: Issuer, link: nat)
    requires ResolveRule(rule, b, issuer, link).Ok?
    ensures RuleBadgeDepth(rule) <= (if link == 0 then 1 else 0)
    decreases rule, 0
  {
    match rule
    case Require(subject) => BadgeChainOfSubject(subject, issuer, link);
    case CountOf(_, rules) => BadgeChainOfRules(rules, b, issuer, link);
  }

  lemma {:induction false} BadgeChainOfRules(rules: seq<Rule<GrantSubject>>, b: Behaviour, issuer: Issuer, link: nat)
    requires ResolveRules(rules, b, issuer, link).Ok?
    ensures RulesBadgeDepth(rules) <= (if link == 0 then 1 else 0)
    decreases rules, 0
  {
    if rules != [] {
      BadgeChainOfRule(rules[0], b, issuer, link);
      BadgeChainOfRules(rules[1..], b, issuer, link);
    }
  }

  lemma {:induction false} BadgeChainOfSubject(subject: GrantSubject, issuer: Issuer, link: nat)
    requires ResolveClaim(subject, issuer, link).Ok? || ResolveHolding(subject, issuer, link).Ok?
    ensures SubjectBadgeDepth(subject) <= (if link == 0 then 1 else 0)
    decreases subject, 0
  {
    match subject
    case IssuerBadge(mark, kind, grants) =>
      assert SelfBadge(kind, mark, grants, issuer, link).Ok?;
      BadgeChainIsOneLink(grants, issuer, link + 1);
    case IssuerInstance(mark, _, grants) =>
      assert SelfBadge(NonFungible, mark, grants, issuer, link).Ok?;
      BadgeChainIsOneLink(grants, issuer, link + 1);
    case _ =>
  }

  // ------------------------------------------------ when sealing passes the caps

  /** A leaf that seals to two: a holder question about a configured badge of no stated kind. */
  predicate Doubles(subject: GrantSubject, b: Behaviour, issuer: Issuer) {
    && !AsksAboutTheActor(b)
    && subject.IssuerConfig?
    && Configured(issuer, subject.slot).Ok?
    && Configured(issuer, subject.slot).value.Badge().Some?
    && Configured(issuer, subject.slot).value.instance.None?
  }

  /** How many leaves a declared rule seals to. */
  function SealedCount(rule: Rule<GrantSubject>, b: Behaviour, issuer: Issuer): nat
    decreases rule
  {
    match rule
    case Require(subject) => if Doubles(subject, b, issuer) then 2 else 1
    case CountOf(_, rules) => SealedCountAll(rules, b, issuer)
  }

  function SealedCountAll(rules: seq<Rule<GrantSubject>>, b: Behaviour, issuer: Issuer): nat
    decreases rules
  {
    if rules == [] then 0 else SealedCount(rules[0], b, issuer) + SealedCountAll(rules[1..], b, issuer)
  }

  /** Some leaf that doubles already sits at the deepest level the caps admit. */
  predicate DoublesTooDeep(rule: Rule<GrantSubject>, b: Behaviour, issuer: Issuer, depth: nat)
    decreases rule
  {
    match rule
    case Require(subject) => Doubles(subject, b, issuer) && depth + 1 >= MAX_RULE_DEPTH
    case CountOf(_, rules) => exists i :: 0 <= i < |rules| && DoublesTooDeep(rules[i], b, issuer, depth + 1)
  }

  lemma {:induction false} SealedLeaves(rule: Rule<GrantSubject>, b: Behaviour, issuer: Issuer, link: nat)
    requires ResolveRule(rule, b, issuer, link).Ok?
    ensures |Leaves(ResolveRule(rule, b, issuer, link).value)| == SealedCount(rule, b, issuer)
    decreases rule
  {
    match rule
    case Require(subject) =>
      var sealed := ResolveRule(rule, b, issuer, link).value;
      if Doubles(subject, b, issuer) {
        var x, y := sealed.rules[0], sealed.rules[1];
        assert sealed.rules == [x] + [y];
        LeavesAllAppend([x], [y]);
        assert LeavesAll([x]) == Leaves(x) && LeavesAll([y]) == Leaves(y);
      }
    case CountOf(_, rules) => SealedLeavesAll(rules, b, issuer, link);
  }

  lemma {:induction false} SealedLeavesAll(rules: seq<Rule<GrantSubject>>, b: Behaviour, issuer: Issuer, link: nat)
    requires ResolveRules(rules, b, issuer, link).Ok?
    ensures |LeavesAll(ResolveRules(rules, b, issuer, link).value)| == SealedCountAll(rules, b, issuer)
    decreases rules
  {
    if rules != [] {
      SealedLeaves(rules[0], b, issuer, link);
      SealedLeavesAll(rules[1..], b, issuer, link);
    }
  }

  lemma {:induction false} BranchCountsLess(rules: seq<Rule<GrantSubject>>, b: Behaviour, issuer: Issuer, i: nat)
    requires i < |rules|
    ensures SealedCount(rules[i], b, issuer) <= SealedCountAll(rules, b, issuer)
    decreases |rules|
  {
    if i > 0 {
      BranchCountsLess(rules[1..], b, issuer, i - 1);
    }
  }

  lemma {:induction false} SealingALeaf(subject: GrantSubject, b: Behaviour, issuer: Issuer, link: nat, depth: nat)
    requires depth < MAX_RULE_DEPTH
    requires ResolveRule(Require(subject), b, issuer, link).Ok?
    ensures WithinCaps(ResolveRule(Require(subject), b, issuer, link).value, depth) <==>
      !DoublesTooDeep(Require(subject), b, issuer, depth)
  {
    SealedLeaves(Require(subject), b, issuer, link);
  }

  /** A rule declared within the caps seals within them exactly where its doubled
      leaves fit the leaf budget and none of them sits at the last level. */
  lemma {:induction false} SealingKeepsTheCaps(
      rule: Rule<GrantSubject>, b: Behaviour, issuer: Issuer, link: nat, depth: nat)
    requires WithinCaps(rule, depth)
    requires ResolveRule(rule, b, issuer, link).Ok?
    ensures WithinCaps(ResolveRule(rule, b, issuer, link).value, depth) <==>
      SealedCount(rule, b, issuer) <= MAX_RULE_LEAVES && !DoublesTooDeep(rule, b, issuer, depth)
    decreases rule
  {
    hide WellFormed, ResolveClaim, ResolveHolding, Doubles;
    var sealed := ResolveRule(rule, b, issuer, link).value;
    match rule
    case Require(subject) => SealingALeaf(subject, b, issuer, link, depth);
    case CountOf(_, rules) =>
      SealedNodesAreWellFormed(rule, b, issuer, link);
      forall i | 0 <= i < |rules|
        ensures WithinCaps(sealed.rules[i], depth + 1) <==>
          SealedCount(rules[i], b, issuer) <= MAX_RULE_LEAVES && !DoublesTooDeep(rules[i], b, issuer, depth + 1)
        ensures SealedCount(rules[i], b, issuer) <= SealedCount(rule, b, issuer)
      {
        SealingKeepsTheCaps(rules[i], b, issuer, link, depth + 1);
        BranchCountsLess(rules, b, issuer, i);
      }
  }

  /** Sealing keeps a node's shape but for the number of its leaves. */
  lemma {:induction false} SealedNodesAreWellFormed(rule: Rule<GrantSubject>, b: Behaviour, issuer: Issuer, link: nat)
    requires rule.CountOf? && WellFormed(rule).Ok? && ResolveRule(rule, b, issuer, link).Ok?
    ensures rule.rules == [] ==> SealedCount(rule, b, issuer) == 0
    ensures WellFormed(ResolveRule(rule, b, issuer, link).value).Ok? <==>
            SealedCount(rule, b, issuer) <= MAX_RULE_LEAVES
  {
    hide ResolveHolding;
    var sealed := ResolveRule(rule, b, issuer, link).value;
    SealedLeaves(rule, b, issuer, link);
    forall i | 0 <= i < |rule.rules| ensures IsConstant(sealed.rules[i]) <==> IsConstant(rule.rules[i]) {
      SealedConstants(rule.rules[i], b, issuer, link);
    }
  }

  lemma {:induction false} SealedConstants(rule: Rule<GrantSubject>, b: Behaviour, issuer: Issuer, link: nat)
    requires ResolveRule(rule, b, issuer, link).Ok?
    ensures IsConstant(ResolveRule(rule, b, issuer, link).value) <==> IsConstant(rule)
  {}

  /** An actor question never grows a rule, so one declared within the caps seals within them. */
  lemma {:induction false} ActorRulesSealAtTheirOwnSize(
      rule: Rule<GrantSubject>, b: Behaviour, issuer: Issuer, depth: nat)
    requires AsksAboutTheActor(b)
    ensures SealedCount(rule, b, issuer) == |Leaves(rule)|
    ensures !DoublesTooDeep(rule, b, issuer, depth)
    decreases rule
  {
    match rule
    case Require(_) =>
    case CountOf(_, rules) =>
      ActorRulesSealAtTheirOwnSizeAll(rules, b, issuer);
      forall i | 0 <= i < |rules| ensures !DoublesTooDeep(rules[i], b, issuer, depth + 1) {
        ActorRulesSealAtTheirOwnSize(rules[i], b, issuer, depth + 1);
      }
  }

  lemma {:induction false} ActorRulesSealAtTheirOwnSizeAll(rules: seq<Rule<GrantSubject>>, b: Behaviour, issuer: Issuer)
    requires AsksAboutTheActor(b)
    ensures SealedCountAll(rules, b, issuer) == |LeavesAll(rules)|
    decreases rules
  {
    if rules != [] {
      ActorRulesSealAtTheirOwnSize(rules[0], b, issuer, 0);
      ActorRulesSealAtTheirOwnSizeAll(rules[1..], b, issuer);
    }
  }

  /** A leaf that seals to a claim of one instance. */
  predicate SealsAnInstance(subject: GrantSubject, b: Behaviour, issuer: Issuer) {
    && AsksAboutTheActor(b)
    && (subject.IssuerInstance?
        || (subject.IssuerConfig? && Configured(issuer, subject.slot).Ok?
            && Configured(issuer, subject.slot).value.instance.Some?))
  }

  /** Some leaf that seals to an instance claim sits at the deepest level the caps admit. */
  predicate InstanceDeclaredTooDeep(rule: Rule<GrantSubject>, b: Behaviour, issuer: Issuer, depth: nat)
    decreases rule
  {
    match rule
    case Require(subject) => SealsAnInstance(subject, b, issuer) && depth + 1 >= MAX_RULE_DEPTH
    case CountOf(_, rules) => exists i :: 0 <= i < |rules| && InstanceDeclaredTooDeep(rules[i], b, issuer, depth + 1)
  }

  lemma {:induction false} SealedInstanceOfLeaf(
      subject: GrantSubject, b: Behaviour, issuer: Issuer, link: nat, depth: nat)
    requires ResolveRule(Require(subject), b, issuer, link).Ok?
    ensures InstanceTooDeep(ResolveRule(Require(subject), b, issuer, link).value, depth) <==>
            InstanceDeclaredTooDeep(Require(subject), b, issuer, depth)
  {
    var sealed := ResolveRule(Require(subject), b, issuer, link).value;
    if sealed.CountOf? {
      assert !InstanceTooDeep(sealed.rules[0], depth + 1) && !InstanceTooDeep(sealed.rules[1], depth + 1);
    }
  }

  lemma {:induction false} SealedInstances(
      rule: Rule<GrantSubject>, b: Behaviour, issuer: Issuer, link: nat, depth: nat)
    requires ResolveRule(rule, b, issuer, link).Ok?
    ensures InstanceTooDeep(ResolveRule(rule, b, issuer, link).value, depth) <==>
            InstanceDeclaredTooDeep(rule, b, issuer, depth)
    decreases rule
  {
    hide ResolveClaim, ResolveHolding, SealsAnInstance;
    match rule
    case Require(subject) => SealedInstanceOfLeaf(subject, b, issuer, link, depth);
    case CountOf(_, rules) =>
      var sealed := ResolveRule(rule, b, issuer, link).value;
      forall i | 0 <= i < |rules|
        ensures InstanceTooDeep(sealed.rules[i], depth + 1) <==>
                InstanceDeclaredTooDeep(rules[i], b, issuer, depth + 1)
      {
        SealedInstances(rules[i], b, issuer, link, depth + 1);
      }
  }

  /** An entry declared within the caps whose rule resolves and whose behaviour
      admits it is sealed exactly where its doubled leaves fit, none of them sits
      at the last level, and no instance claim does. */
  lemma {:induction false} EntriesSealExactly(entry: GrantEntry, issuer: Issuer, link: nat)
    requires WithinCaps(entry.rule, 0)
    requires ResolveRule(entry.rule, entry.behaviour, issuer, link).Ok?
    requires Refuses(entry.behaviour, ResolveRule(entry.rule, entry.behaviour, issuer, link).value).None?
    ensures ResolveEntry(entry, issuer, link).Ok? <==>
            && SealedCount(entry.rule, entry.behaviour, issuer) <= MAX_RULE_LEAVES
            && !DoublesTooDeep(entry.rule, entry.behaviour, issuer, 0)
            && !InstanceDeclaredTooDeep(entry.rule, entry.behaviour, issuer, 0)
    ensures ResolveEntry(entry, issuer, link).Err? ==> ResolveEntry(entry, issuer, link).error == PastTheCaps
  {
    hide ResolveRule, WithinCaps, Encodes, InstanceTooDeep, InstanceDeclaredTooDeep, DoublesTooDeep, SealedCount;
    SealingKeepsTheCaps(entry.rule, entry.behaviour, issuer, link, 0);
    SealedInstances(entry.rule, entry.behaviour, issuer, link, 0);
    var stored := ResolveRule(entry.rule, entry.behaviour, issuer, link).value;
    if WithinCaps(stored, 0) {
      WrittenIsReadBack(stored);
    }
  }

  // ------------------------------------------------- a refusal nothing meets

  /** An actor question seals claims and nothing else. */
  lemma {:induction false} ActorRulesReadClaims(rule: Rule<GrantSubject>, b: Behaviour, issuer: Issuer, link: nat)
    requires AsksAboutTheActor(b) && ResolveRule(rule, b, issuer, link).Ok?
    ensures ReadsClaimsOnly(ResolveRule(rule, b, issuer, link).value)
    decreases rule
  {
    match rule
    case Require(_) =>
    case CountOf(_, rules) => ActorBranchesReadClaims(rules, b, issuer, link);
  }

  lemma {:induction false} ActorBranchesReadClaims(
      rules: seq<Rule<GrantSubject>>, b: Behaviour, issuer: Issuer, link: nat)
    requires AsksAboutTheActor(b) && ResolveRules(rules, b, issuer, link).Ok?
    ensures forall leaf <- LeavesAll(ResolveRules(rules, b, issuer, link).value) :: leaf.ClaimLeaf?
    decreases rules
  {
    if rules != [] {
      ActorRulesReadClaims(rules[0], b, issuer, link);
      ActorBranchesReadClaims(rules[1..], b, issuer, link);
    }
  }

  predicate AsksTheWrongQuestion<T>(r: Result<T, GrantsError>) { r.Err? && r.error.WrongQuestion? }

  /** Resolution never refuses a set for asking the wrong question. */
  lemma {:induction false} WrongQuestionsNeverArise(grants: GrantsExpr, issuer: Issuer, link: nat)
    ensures !AsksTheWrongQuestion(ResolveLink(grants, issuer, link))
    decreases grants, 0
  {
    if grants != [] {
      hide ResolveEntry, Granting;
      WrongQuestionsNeverArise(grants[..|grants| - 1], issuer, link);
      NoWrongQuestionInEntry(grants[|grants| - 1], issuer, link);
    }
  }

  lemma {:induction false} NoWrongQuestionInEntry(entry: GrantEntry, issuer: Issuer, link: nat)
    ensures !AsksTheWrongQuestion(ResolveEntry(entry, issuer, link))
    decreases entry, 0
  {
    hide ResolveRule, WithinCaps, Encodes, ReadsClaimsOnly;
    NoWrongQuestionInRule(entry.rule, entry.behaviour, issuer, link);
    if AsksAboutTheActor(entry.behaviour) && ResolveRule(entry.rule, entry.behaviour, issuer, link).Ok? {
      ActorRulesReadClaims(entry.rule, entry.behaviour, issuer, link);
    }
  }

  lemma {:induction false} NoWrongQuestionInRule(rule: Rule<GrantSubject>, b: Behaviour, issuer: Issuer, link: nat)
    ensures !AsksTheWrongQuestion(ResolveRule(rule, b, issuer, link))
    decreases rule, 0
  {
    match rule
    case Require(subject) => NoWrongQuestionInSubject(subject, issuer, link);
    case CountOf(_, rules) => NoWrongQuestionInRules(rules, b, issuer, link);
  }

  lemma {:induction false} NoWrongQuestionInRules(
      rules: seq<Rule<GrantSubject>>, b: Behaviour, issuer: Issuer, link: nat)
    ensures !AsksTheWrongQuestion(ResolveRules(rules, b, issuer, link))
    decreases rules, 0
  {
    if rules != [] {
      NoWrongQuestionInRule(rules[0], b, issuer, link);
      NoWrongQuestionInRules(rules[1..], b, issuer, link);
    }
  }

  lemma {:induction false} NoWrongQuestionInSubject(subject: GrantSubject, issuer: Issuer, link: nat)
    ensures !AsksTheWrongQuestion(ResolveClaim(subject, issuer, link))
    ensures !AsksTheWrongQuestion(ResolveHolding(subject, issuer, link))
    decreases subject, 0
  {
    match subject
    case IssuerBadge(_, _, grants) => WrongQuestionsNeverArise(grants, issuer, link + 1);
    case IssuerInstance(_, _, grants) => WrongQuestionsNeverArise(grants, issuer, link + 1);
    case _ =>
  }

  // ------------------------------------------------------------ a badge's own rules

  /** A set that resolves as a badge's own rules resolves to the same anywhere. */
  lemma {:induction false} BadgeRulesResolveAlike(grants: GrantsExpr, issuer: Issuer)
    requires ResolveLink(grants, issuer, 1).Ok?
    ensures ResolveLink(grants, issuer, 0) == ResolveLink(grants, issuer, 1)
    decreases grants, 0
  {
    hide Granting, ResolveEntry;
    if grants != [] {
      BadgeRulesResolveAlike(grants[..|grants| - 1], issuer);
      BadgeEntryResolvesAlike(grants[|grants| - 1], issuer);
    }
  }

  lemma {:induction false} BadgeEntryResolvesAlike(entry: GrantEntry, issuer: Issuer)
    requires ResolveEntry(entry, issuer, 1).Ok?
    ensures ResolveEntry(entry, issuer, 0) == ResolveEntry(entry, issuer, 1)
    decreases entry, 0
  {
    hide ResolveRule, Refuses, WithinCaps, Encodes;
    BadgeRuleResolvesAlike(entry.rule, entry.behaviour, issuer);
  }

  lemma {:induction false} BadgeRuleResolvesAlike(rule: Rule<GrantSubject>, b: Behaviour, issuer: Issuer)
    requires ResolveRule(rule, b, issuer, 1).Ok?
    ensures ResolveRule(rule, b, issuer, 0) == ResolveRule(rule, b, issuer, 1)
    decreases rule, 0
  {
    hide ResolveClaim, ResolveHolding;
    match rule
    case Require(subject) => BadgeSubjectResolvesAlike(subject, issuer);
    case CountOf(_, rules) => BadgeBranchesResolveAlike(rules, b, issuer);
  }

  lemma {:induction false} BadgeSubjectResolvesAlike(subject: GrantSubject, issuer: Issuer)
    ensures ResolveClaim(subject, issuer, 1).Ok? ==>
              ResolveClaim(subject, issuer, 0) == ResolveClaim(subject, issuer, 1)
    ensures ResolveHolding(subject, issuer, 1).Ok? ==>
              ResolveHolding(subject, issuer, 0) == ResolveHolding(subject, issuer, 1)
  {
    hide ResolveLink;
    match subject
    case IssuerSelf =>
    case IssuerBadge(mark, kind, grants) => assert SelfBadge(kind, mark, grants, issuer, 1).Err?;
    case IssuerInstance(mark, _, grants) => assert SelfBadge(NonFungible, mark, grants, issuer, 1).Err?;
    case IssuerConfig(_) =>
  }

  lemma {:induction false} BadgeBranchesResolveAlike(rules: seq<Rule<GrantSubject>>, b: Behaviour, issuer: Issuer)
    requires ResolveRules(rules, b, issuer, 1).Ok?
    ensures ResolveRules(rules, b, issuer, 0) == ResolveRules(rules, b, issuer, 1)
    decreases rules, 0
  {
    hide ResolveRule;
    if rules != [] {
      BadgeRuleResolvesAlike(rules[0], b, issuer);
      BadgeBranchesResolveAlike(rules[1..], b, issuer);
    }
  }
}
