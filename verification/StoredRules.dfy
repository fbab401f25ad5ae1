/** A stored rule's wire form: the levels its codec descends, and the bytes it takes. */
module StoredRules {
  import opened Vocabulary
  import opened Syntax
  import opened Rules

  const MAX_RULE_WIRE_DEPTH: nat := 2 * MAX_RULE_DEPTH + 1
  const MAX_VALUE_BYTES: nat := 4096

  // ------------------------------------------------------------------ nesting

  /** The codec may go one level down from `depth`. */
  predicate Descends(depth: nat) { depth < MAX_RULE_WIRE_DEPTH }

  /** A leaf at `depth`: its own fields sit a level down, a claim's fields one
      further, and an instance one further than the field holding it. */
  predicate LeafFits(leaf: SealedLeaf, depth: nat) {
    && Descends(depth)
    && match leaf
       case ClaimLeaf(claim) => Descends(depth + 1) && (claim.instance.Some? ==> Descends(depth + 2))
       case Held(_, holding) => holding.Instance? ==> Descends(depth + 1)
  }

  /** A rule at `depth`: the leaf's field is a level down, and so is the branch
      list, whose elements are one further whether or not there are any. */
  predicate Fits(rule: StoredRule, depth: nat)
    decreases rule
  {
    && Descends(depth)
    && match rule
       case Require(leaf) => LeafFits(leaf, depth + 1)
       case CountOf(_, rules) =>
         Descends(depth + 1) && forall i :: 0 <= i < |rules| ==> Fits(rules[i], depth + 2)
  }

  /** Every node passes the test the decoder puts to it. */
  predicate EveryNodeWellFormed(rule: StoredRule)
    decreases rule
  {
    WellFormed(rule).Ok?
    && (rule.CountOf? ==> forall i :: 0 <= i < |rule.rules| ==> EveryNodeWellFormed(rule.rules[i]))
  }

  /** Whether a rule's own bytes decode. Neither caps test is asked for: the
      nesting cap is the codec's, and each node is judged as it is read. */
  predicate Decodes(rule: StoredRule) { Fits(rule, 0) && EveryNodeWellFormed(rule) }

  /** A claim of one instance at the deepest level the caps admit. */
  predicate InstanceTooDeep(rule: StoredRule, depth: nat)
    decreases rule
  {
    match rule
    case Require(leaf) => leaf.ClaimLeaf? && leaf.claim.instance.Some? && depth + 1 >= MAX_RULE_DEPTH
    case CountOf(_, rules) => exists i :: 0 <= i < |rules| && InstanceTooDeep(rules[i], depth + 1)
  }

  /** A rule within the caps decodes exactly where no instance claim sits at the
      last level, and nothing past the caps decodes at all. */
  lemma {:induction false} DecodedIsWithinCaps(rule: StoredRule, depth: nat)
    ensures Fits(rule, 2 * depth) && EveryNodeWellFormed(rule) <==>
            WithinCaps(rule, depth) && !InstanceTooDeep(rule, depth)
    decreases rule
  {
    hide WellFormed;
    match rule
    case Require(_) =>
      assert WellFormed(rule).Ok? by { RequiresAreWellFormed(rule); }
    case CountOf(_, rules) =>
      forall i | 0 <= i < |rules|
        ensures Fits(rules[i], 2 * depth + 2) && EveryNodeWellFormed(rules[i]) <==>
                WithinCaps(rules[i], depth + 1) && !InstanceTooDeep(rules[i], depth + 1)
      {
        DecodedIsWithinCaps(rules[i], depth + 1);
        assert 2 * (depth + 1) == 2 * depth + 2;
      }
  }

  lemma {:induction false} RequiresAreWellFormed(rule: StoredRule)
    requires rule.Require?
    ensures WellFormed(rule) == Ok(())
  {}

  function Threshold(rule: StoredRule): StoredRule { CountOf(1, [rule]) }

  /** Three thresholds over a claim of one instance: within the caps, and its bytes do not decode. */
  lemma {:induction false} DeepInstancesDoNotDecode(badge: ResourceAddr, id: Word64)
    ensures var rule := Threshold(Threshold(Threshold(Require(ClaimLeaf(Claim(badge, Some(id)))))));
            WithinCaps(rule, 0) && !Decodes(rule)
  {
    var leaf: StoredRule := Require(ClaimLeaf(Claim(badge, Some(id))));
    ThresholdsStayWithin(leaf, 2);
    ThresholdsStayWithin(Threshold(leaf), 1);
    ThresholdsStayWithin(Threshold(Threshold(leaf)), 0);
    var rule := Threshold(Threshold(Threshold(leaf)));
    assert InstanceTooDeep(leaf, 3);
    assert Threshold(leaf).rules[0] == leaf && InstanceTooDeep(Threshold(leaf), 2);
    assert Threshold(Threshold(leaf)).rules[0] == Threshold(leaf) && InstanceTooDeep(Threshold(Threshold(leaf)), 1);
    assert rule.rules[0] == Threshold(Threshold(leaf)) && InstanceTooDeep(rule, 0);
    DecodedIsWithinCaps(rule, 0);
  }

  lemma {:induction false} ThresholdsStayWithin(rule: StoredRule, depth: nat)
    requires WithinCaps(rule, depth + 1) && |Leaves(rule)| == 1
    ensures WithinCaps(Threshold(rule), depth)
    ensures |Leaves(Threshold(rule))| == 1
  {
    var above := Threshold(rule);
    assert LeavesAll([rule]) == Leaves(rule) + LeavesAll([]);
    assert Leaves(above) == Leaves(rule);
    assert !IsConstant(rule);
  }

  // -------------------------------------------------------------------- bytes

  /** The bytes of a minimal length field. */
  function LengthLen(n: nat): nat { if n < 128 then 1 else 1 + LengthLen(n / 128) }

  /** The bytes of a leaf: its tag, an address, and what says which instance. */
  function LeafLen(leaf: SealedLeaf): nat {
    match leaf
    case ClaimLeaf(claim) => 1 + 32 + (if claim.instance.Some? then 9 else 1)
    case Held(_, holding) => 1 + 32 + (if holding.Instance? then 9 else 1)
  }

  /** The bytes of a rule: a tag, then its leaf or its count and its branches. */
  function EncodedLen(rule: StoredRule): nat
    decreases rule
  {
    match rule
    case Require(leaf) => 1 + LeafLen(leaf)
    case CountOf(_, rules) => 2 + LengthLen(|rules|) + EncodedLenAll(rules)
  }

  function EncodedLenAll(rules: seq<StoredRule>): nat
    decreases rules
  {
    if rules == [] then 0 else EncodedLen(rules[0]) + EncodedLenAll(rules[1..])
  }

  /** Whether the bytes can be made and fit the value they are carried in. */
  predicate Encodes(rule: StoredRule) { Fits(rule, 0) && EncodedLen(rule) <= MAX_VALUE_BYTES }

  /** A leaf with every threshold above it costs at most fifty-two bytes. */
  lemma {:induction false} LeavesPayForTheirTree(rule: StoredRule, depth: nat)
    requires WithinCaps(rule, depth) && !IsConstant(rule)
    ensures Leaves(rule) != []
    ensures EncodedLen(rule) + 3 * depth <= 52 * |Leaves(rule)|
    decreases rule
  {
    match rule
    case Require(_) =>
    case CountOf(_, rules) =>
      assert forall i :: 0 <= i < |rules| ==> !IsConstant(rules[i]);
      BranchesPayForTheirTrees(rules, depth + 1);
      assert |rules| <= |LeavesAll(rules)| <= MAX_RULE_LEAVES;
  }

  lemma {:induction false} BranchesPayForTheirTrees(rules: seq<StoredRule>, depth: nat)
    requires forall i :: 0 <= i < |rules| ==> WithinCaps(rules[i], depth) && !IsConstant(rules[i])
    ensures |rules| <= |LeavesAll(rules)|
    ensures rules != [] ==> EncodedLenAll(rules) + 3 * depth <= 52 * |LeavesAll(rules)|
    decreases rules
  {
    if rules != [] {
      LeavesPayForTheirTree(rules[0], depth);
      BranchesPayForTheirTrees(rules[1..], depth);
    }
  }

  /** Every rule within the caps fits the bytes a value carries. */
  lemma {:induction false} RulesFitAValue(rule: StoredRule)
    requires WithinCaps(rule, 0)
    ensures EncodedLen(rule) <= MAX_VALUE_BYTES
  {
    if !IsConstant(rule) {
      LeavesPayForTheirTree(rule, 0);
      assert rule.CountOf? ==> |Leaves(rule)| <= MAX_RULE_LEAVES;
    } else {
      assert EncodedLen(rule) == 3;
    }
  }

  /** Within the caps, being written, being read back and holding no instance
      claim at the last level are one thing. */
  lemma {:induction false} WrittenIsReadBack(rule: StoredRule)
    requires WithinCaps(rule, 0)
    ensures Encodes(rule) <==> !InstanceTooDeep(rule, 0)
    ensures Decodes(rule) <==> !InstanceTooDeep(rule, 0)
  {
    RulesFitAValue(rule);
    DecodedIsWithinCaps(rule, 0);
    WithinCapsIsWellFormed(rule, 0);
  }

  lemma {:induction false} WithinCapsIsWellFormed(rule: StoredRule, depth: nat)
    requires WithinCaps(rule, depth)
    ensures EveryNodeWellFormed(rule)
    decreases rule
  {
    if rule.CountOf? {
      forall i | 0 <= i < |rule.rules| ensures EveryNodeWellFormed(rule.rules[i]) {
        WithinCapsIsWellFormed(rule.rules[i], depth + 1);
      }
    }
  }
}
