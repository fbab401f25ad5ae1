/** The threshold algebra: its caps, its constants, and where a rule is judged. */
module Rules {
  import opened Vocabulary
  import opened Syntax

  const MAX_RULE_DEPTH: nat := 4
  const MAX_RULE_LEAVES: nat := 64

  // ------------------------------------------------------------------- leaves

  /** Every leaf, in preorder. */
  function Leaves<L>(rule: Rule<L>): (ls: seq<L>)
    decreases rule
  {
    match rule
    case Require(leaf) => [leaf]
    case CountOf(_, rules) => LeavesAll(rules)
  }

  function LeavesAll<L>(rules: seq<Rule<L>>): (ls: seq<L>)
    decreases rules
  {
    if rules == [] then [] else Leaves(rules[0]) + LeavesAll(rules[1..])
  }

  lemma {:induction false} LeavesAllAppend<L>(a: seq<Rule<L>>, b: seq<Rule<L>>)
    ensures LeavesAll(a + b) == LeavesAll(a) + LeavesAll(b)
    decreases |a|
  {
    if a == [] {
      assert a + b == b;
    } else {
      assert (a + b)[1..] == a[1..] + b;
      LeavesAllAppend(a[1..], b);
    }
  }

  ghost function Nodes<L>(rule: Rule<L>): (n: nat)
    ensures n > 0
    decreases rule
  {
    match rule
    case Require(_) => 1
    case CountOf(_, rules) => 1 + NodesAll(rules)
  }

  ghost function NodesAll<L>(rules: seq<Rule<L>>): nat
    decreases rules
  {
    if rules == [] then 0 else Nodes(rules[0]) + NodesAll(rules[1..])
  }

  lemma {:induction false} NodesAllAppend<L>(a: seq<Rule<L>>, b: seq<Rule<L>>)
    ensures NodesAll(a + b) == NodesAll(a) + NodesAll(b)
    decreases |a|
  {
    if a == [] {
      assert a + b == b;
    } else {
      assert (a + b)[1..] == a[1..] + b;
      NodesAllAppend(a[1..], b);
    }
  }

  /** The walk over an explicit stack. The stack's top is its first entry, so
      pushing the branches last first leaves them in front in their own order. */
  method CollectLeaves<L>(rule: Rule<L>) returns (found: seq<L>)
    ensures found == Leaves(rule)
  {
    found := [];
    var stack := [rule];
    assert LeavesAll(stack) == Leaves(rule);
    while stack != []
      invariant found + LeavesAll(stack) == Leaves(rule)
      decreases NodesAll(stack)
    {
      var top := stack[0];
      assert NodesAll(stack) == Nodes(top) + NodesAll(stack[1..]);
      stack := stack[1..];
      match top
      case Require(leaf) =>
        found := found + [leaf];
      case CountOf(_, rules) =>
        LeavesAllAppend(rules, stack);
        NodesAllAppend(rules, stack);
        stack := rules + stack;
    }
  }

  // --------------------------------------------------------------------- caps

  datatype Malformed = ExtraConstant | ConstantBranch | RequiresNone | RequiresTooMany | TooManyLeaves

  predicate IsConstant<L>(rule: Rule<L>) { rule.CountOf? && rule.rules == [] }

  function Always<L>(): Rule<L> { CountOf(0, []) }

  function Never<L>(): Rule<L> { CountOf(1, []) }

  /** The rule one node meets; its branches judge themselves. */
  function WellFormed<L>(rule: Rule<L>): Result<(), Malformed> {
    match rule
    case Require(_) => Ok(())
    case CountOf(count, rules) =>
      if rules == [] then
        if count > 1 then Err(ExtraConstant) else Ok(())
      else if exists i :: 0 <= i < |rules| && IsConstant(rules[i]) then Err(ConstantBranch)
      else if count == 0 then Err(RequiresNone)
      else if count > |rules| then Err(RequiresTooMany)
      else if |Leaves(rule)| > MAX_RULE_LEAVES then Err(TooManyLeaves)
      else Ok(())
  }

  /** Inside the caps a stored rule is decoded under. */
  predicate WithinCaps<L>(rule: Rule<L>, depth: nat)
    decreases rule
  {
    depth < MAX_RULE_DEPTH
    && match rule
       case Require(_) => true
       case CountOf(_, rules) =>
         WellFormed(rule).Ok? && forall i :: 0 <= i < |rules| ==> WithinCaps(rules[i], depth + 1)
  }

  // ------------------------------------------------------------- satisfaction

  /** Whether the presented claims satisfy a rule. */
  predicate SatisfiedBy(rule: Rule<Claim>, presented: seq<Claim>)
    decreases rule
  {
    match rule
    case Require(claim) => claim in presented
    case CountOf(count, rules) => Met(rules, presented) >= count
  }

  /** How many branches the presented claims satisfy. */
  function Met(rules: seq<Rule<Claim>>, presented: seq<Claim>): nat
    decreases rules
  {
    if rules == [] then 0
    else (if SatisfiedBy(rules[0], presented) then 1 else 0) + Met(rules[1..], presented)
  }

  lemma {:induction false} SatisfactionIsMonotone(rule: Rule<Claim>, fewer: seq<Claim>, more: seq<Claim>)
    requires forall c <- fewer :: c in more
    ensures SatisfiedBy(rule, fewer) ==> SatisfiedBy(rule, more)
    decreases rule
  {
    match rule
    case Require(_) =>
    case CountOf(_, rules) => MetIsMonotone(rules, fewer, more);
  }

  lemma {:induction false} MetIsMonotone(rules: seq<Rule<Claim>>, fewer: seq<Claim>, more: seq<Claim>)
    requires forall c <- fewer :: c in more
    ensures Met(rules, fewer) <= Met(rules, more)
    decreases rules
  {
    if rules != [] {
      SatisfactionIsMonotone(rules[0], fewer, more);
      MetIsMonotone(rules[1..], fewer, more);
    }
  }

  /** A rule within caps that is not a constant asks for something, and its own leaves are enough. */
  lemma {:induction false} RulesAskAndCanBeMet(rule: Rule<Claim>, depth: nat)
    requires WithinCaps(rule, depth) && !IsConstant(rule)
    ensures !SatisfiedBy(rule, [])
    ensures SatisfiedBy(rule, Leaves(rule))
    decreases rule
  {
    match rule
    case Require(_) =>
    case CountOf(_, rules) =>
      BranchesAskAndCanBeMet(rules, depth + 1, Leaves(rule));
  }

  lemma {:induction false} BranchesAskAndCanBeMet(rules: seq<Rule<Claim>>, depth: nat, presented: seq<Claim>)
    requires forall i :: 0 <= i < |rules| ==> WithinCaps(rules[i], depth) && !IsConstant(rules[i])
    requires forall c <- LeavesAll(rules) :: c in presented
    ensures Met(rules, []) == 0
    ensures Met(rules, presented) == |rules|
    decreases rules
  {
    if rules != [] {
      RulesAskAndCanBeMet(rules[0], depth);
      SatisfactionIsMonotone(rules[0], Leaves(rules[0]), presented);
      BranchesAskAndCanBeMet(rules[1..], depth, presented);
    }
  }

  /** Each constant meaning has exactly one spelling within the caps. */
  lemma {:induction false} ConstantsHaveOneSpelling(rule: Rule<Claim>, depth: nat)
    requires WithinCaps(rule, depth)
    ensures (forall presented :: SatisfiedBy(rule, presented)) <==> rule == Always()
    ensures (forall presented :: !SatisfiedBy(rule, presented)) <==> rule == Never()
  {
    if !IsConstant(rule) {
      RulesAskAndCanBeMet(rule, depth);
      assert exists presented :: SatisfiedBy(rule, presented);
    } else {
      assert SatisfiedBy(rule, []) <==> rule.count == 0;
      assert !SatisfiedBy(rule, []) <==> rule == Never();
    }
  }

  // ----------------------------------------------------------- thresholds as choices

  /** A rule met where each leaf is met as `holds` says: a count of k is met where k branches
      are, told apart by their places. */
  ghost predicate Meets<L>(rule: Rule<L>, holds: L -> bool)
    decreases rule
  {
    match rule
    case Require(leaf) => holds(leaf)
    case CountOf(count, rules) => |set i: nat | i < |rules| && Meets(rules[i], holds)| >= count
  }

  ghost function MeetingPlaces<L>(rules: seq<Rule<L>>, holds: L -> bool): set<nat> {
    set i: nat | i < |rules| && Meets(rules[i], holds)
  }

  lemma {:induction false} MeetingAThreshold<L>(count: Byte, rules: seq<Rule<L>>, holds: L -> bool)
    ensures Meets(CountOf(count, rules), holds) <==> |MeetingPlaces(rules, holds)| >= count
  {
    var rule: Rule<L> := CountOf(count, rules);
    assert MeetingPlaces(rules, holds) == set i: nat | i < |rule.rules| && Meets(rule.rules[i], holds);
  }

  /** Whatever its leaves ask, a rule within caps that is no constant is met where they all hold and
      not where none does. */
  lemma {:induction false} RulesTurnOnTheirLeaves<L>(rule: Rule<L>, depth: nat, none: L -> bool, all: L -> bool)
    requires WithinCaps(rule, depth) && !IsConstant(rule)
    requires forall leaf <- Leaves(rule) :: !none(leaf) && all(leaf)
    ensures !Meets(rule, none) && Meets(rule, all)
    decreases rule
  {
    match rule
    case Require(_) =>
    case CountOf(count, rules) =>
      forall i | 0 <= i < |rules| ensures !Meets(rules[i], none) && Meets(rules[i], all) {
        LeavesOfBranches(rules, i);
        RulesTurnOnTheirLeaves(rules[i], depth + 1, none, all);
      }
      MeetingAThreshold(count, rules, none);
      MeetingAThreshold(count, rules, all);
      assert MeetingPlaces(rules, none) == {};
      EveryPlaceMeets(rules, all, |rules|);
      assert rules[..|rules|] == rules;
  }

  lemma {:induction false} LeavesOfBranches<L>(rules: seq<Rule<L>>, i: nat)
    requires i < |rules|
    ensures forall leaf <- Leaves(rules[i]) :: leaf in LeavesAll(rules)
    decreases i
  {
    if i > 0 {
      LeavesOfBranches(rules[1..], i - 1);
    }
  }

  lemma {:induction false} EveryPlaceMeets<L>(rules: seq<Rule<L>>, holds: L -> bool, n: nat)
    requires n <= |rules| && forall i :: 0 <= i < |rules| ==> Meets(rules[i], holds)
    ensures |MeetingPlaces(rules[..n], holds)| == n
  {
    if n > 0 {
      EveryPlaceMeets(rules, holds, n - 1);
      assert MeetingPlaces(rules[..n], holds) == MeetingPlaces(rules[..n - 1], holds) + {n - 1};
    }
  }

  /** `places` names `count` branches that are each satisfied. */
  ghost predicate Chosen(places: set<nat>, count: nat, rules: seq<Rule<Claim>>, presented: seq<Claim>) {
    |places| == count && forall i <- places :: i < |rules| && SatisfiedBy(rules[i], presented)
  }

  lemma {:induction false} SomeOf<T>(all: set<T>, n: nat) returns (some: set<T>)
    requires n <= |all|
    ensures some <= all && |some| == n
    decreases |all|
  {
    some := all;
    if n < |all| {
      var x :| x in all;
      some := SomeOf(all - {x}, n);
    }
  }

  lemma {:induction false} FewerAreFewer<T>(some: set<T>, all: set<T>)
    requires some <= all
    ensures |some| <= |all|
    decreases |some|
  {
    if some != {} {
      var x :| x in some;
      FewerAreFewer(some - {x}, all - {x});
    }
  }

  lemma {:induction false} MetAppend(rules: seq<Rule<Claim>>, last: Rule<Claim>, presented: seq<Claim>)
    ensures Met(rules + [last], presented) == Met(rules, presented) + (if SatisfiedBy(last, presented) then 1 else 0)
    decreases |rules|
  {
    if rules == [] {
      assert ([] + [last])[1..] == [];
    } else {
      assert (rules + [last])[1..] == rules[1..] + [last] && (rules + [last])[0] == rules[0];
      MetAppend(rules[1..], last, presented);
    }
  }

  /** The places of the branches satisfied among the first `n`. */
  ghost function Satisfied(rules: seq<Rule<Claim>>, presented: seq<Claim>, n: nat): set<nat>
    requires n <= |rules|
  {
    set i: nat | i < n && SatisfiedBy(rules[i], presented)
  }

  lemma {:induction false} MetCounts(rules: seq<Rule<Claim>>, presented: seq<Claim>, n: nat)
    requires n <= |rules|
    ensures Met(rules[..n], presented) == |Satisfied(rules, presented, n)|
    decreases n
  {
    hide SatisfiedBy;
    if n == 0 {
      assert Satisfied(rules, presented, 0) == {};
    } else {
      MetCounts(rules, presented, n - 1);
      MetAppend(rules[..n - 1], rules[n - 1], presented);
      assert rules[..n] == rules[..n - 1] + [rules[n - 1]];
      PlacesGrow(rules, presented, n);
    }
  }

  /** A threshold of k is satisfied exactly where some k of its branches are. */
  lemma {:induction false} ThresholdsChoose(count: Byte, rules: seq<Rule<Claim>>, presented: seq<Claim>)
    ensures SatisfiedBy(CountOf(count, rules), presented) <==>
            exists places: set<nat> :: Chosen(places, count, rules, presented)
  {
    var all := Satisfied(rules, presented, |rules|);
    MetCounts(rules, presented, |rules|);
    assert rules[..|rules|] == rules;
    assert SatisfiedBy(CountOf(count, rules), presented) <==> |all| >= count;
    hide SatisfiedBy;
    if |all| >= count {
      var places := SomeOf(all, count);
      assert Chosen(places, count, rules, presented);
    }
    if places: set<nat> :| Chosen(places, count, rules, presented) {
      assert places <= all;
      FewerAreFewer(places, all);
    }
  }

  /** Satisfaction by presented claims is meeting every threshold by as many branches as it counts. */
  lemma {:induction false} SatisfactionIsMeeting(rule: Rule<Claim>, presented: seq<Claim>)
    ensures SatisfiedBy(rule, presented) <==> Meets(rule, (c: Claim) => c in presented)
    decreases rule
  {
    match rule
    case Require(_) =>
    case CountOf(count, rules) =>
      var holds := (c: Claim) => c in presented;
      forall i | 0 <= i < |rules| ensures SatisfiedBy(rules[i], presented) <==> Meets(rules[i], holds) {
        SatisfactionIsMeeting(rules[i], presented);
      }
      MeetingAThreshold(count, rules, holds);
      MetCounts(rules, presented, |rules|);
      assert rules[..|rules|] == rules;
      assert Satisfied(rules, presented, |rules|) == MeetingPlaces(rules, holds);
  }

  function EachRequired(claims: seq<Claim>): seq<Rule<Claim>> {
    seq(|claims|, i requires 0 <= i < |claims| => Require(claims[i]))
  }

  ghost function Presented(claims: seq<Claim>, presented: seq<Claim>): set<Claim> {
    set c <- claims | c in presented
  }

  /** A k-of-n rule over distinct claims is satisfied exactly where at least k of them are presented. */
  lemma {:induction false} AnyKClaimsSuffice(count: Byte, claims: seq<Claim>, presented: seq<Claim>)
    requires forall i, j :: 0 <= i < j < |claims| ==> claims[i] != claims[j]
    ensures SatisfiedBy(CountOf(count, EachRequired(claims)), presented) <==>
            |Presented(claims, presented)| >= count
  {
    var rules := EachRequired(claims);
    MetCounts(rules, presented, |rules|);
    assert rules[..|rules|] == rules;
    PresentedCounts(claims, presented, |claims|);
    assert claims[..|claims|] == claims;
  }

  lemma {:induction false} PresentedCounts(claims: seq<Claim>, presented: seq<Claim>, n: nat)
    requires forall i, j :: 0 <= i < j < |claims| ==> claims[i] != claims[j]
    requires n <= |claims|
    ensures |Satisfied(EachRequired(claims), presented, n)| == |Presented(claims[..n], presented)|
    decreases n
  {
    var rules := EachRequired(claims);
    if n == 0 {
      assert Satisfied(rules, presented, 0) == {} && Presented(claims[..0], presented) == {};
    } else {
      var c := claims[n - 1];
      PresentedCounts(claims, presented, n - 1);
      assert SatisfiedBy(rules[n - 1], presented) <==> c in presented;
      hide SatisfiedBy;
      PlacesGrow(rules, presented, n);
      assert claims[..n] == claims[..n - 1] + [c] && c !in claims[..n - 1];
      PresentedGrows(claims[..n - 1], c, presented);
    }
  }

  lemma {:induction false} PlacesGrow(rules: seq<Rule<Claim>>, presented: seq<Claim>, n: nat)
    requires 0 < n <= |rules|
    ensures |Satisfied(rules, presented, n)| ==
            |Satisfied(rules, presented, n - 1)| + if SatisfiedBy(rules[n - 1], presented) then 1 else 0
  {
    hide SatisfiedBy;
    var fewer := Satisfied(rules, presented, n - 1);
    assert Satisfied(rules, presented, n) == if SatisfiedBy(rules[n - 1], presented) then fewer + {n - 1} else fewer;
  }

  lemma {:induction false} PresentedGrows(claims: seq<Claim>, c: Claim, presented: seq<Claim>)
    requires c !in claims
    ensures |Presented(claims + [c], presented)| == |Presented(claims, presented)| + if c in presented then 1 else 0
  {
    var some := Presented(claims, presented);
    assert Presented(claims + [c], presented) == if c in presented then some + {c} else some;
  }

  // ------------------------------------------------------ the stage of judgment

  datatype Judged = AtAdmission | AtMaterialization | InTheLeg

  /** The earliest stage holding the answer to every one of `stages`. */
  function Place(stages: set<Judged>): Judged {
    if InTheLeg in stages || {AtAdmission, AtMaterialization} <= stages then InTheLeg
    else if AtMaterialization in stages then AtMaterialization
    else AtAdmission
  }

  /** What a leaf's answer is read from: evidence presented, committed state, or the session of a call. */
  datatype Source = Evidence | Committed | Session

  /** What each stage holds: admission the evidence, materialization the state, only a call both. */
  function Knows(stage: Judged): set<Source> {
    match stage
    case AtAdmission => {Evidence}
    case AtMaterialization => {Committed}
    case InTheLeg => {Evidence, Committed, Session}
  }

  predicate Before(a: Judged, b: Judged) { a != b && (a.AtAdmission? || b.InTheLeg?) }

  /** `stage` holds everything the leaves ask for, and no earlier stage does. */
  ghost predicate AnswersFirst<L>(leaves: seq<L>, asks: L -> Source, stage: Judged) {
    && (forall leaf <- leaves :: asks(leaf) in Knows(stage))
    && forall earlier: Judged :: Before(earlier, stage) ==> exists leaf <- leaves :: asks(leaf) !in Knows(earlier)
  }

  /** A rule is judged at the earliest stage holding the answer to every leaf, whatever its tree. */
  lemma {:induction false} RulesAreJudgedFirst<L>(rule: Rule<L>, asks: L -> Source, stage: L -> Judged)
    requires forall leaf <- Leaves(rule) :: AnswersFirst([leaf], asks, stage(leaf))
    ensures AnswersFirst(Leaves(rule), asks, Place(StageSet(rule, stage)))
  {
    var leaves, at := Leaves(rule), Place(StageSet(rule, stage));
    forall leaf <- leaves ensures asks(leaf) in Knows(at) {
      assert leaf in [leaf] && stage(leaf) in StageSet(rule, stage);
    }
    forall earlier: Judged | Before(earlier, at) ensures exists leaf <- leaves :: asks(leaf) !in Knows(earlier) {
      var late :| late in StageSet(rule, stage) && (late.InTheLeg? || late != earlier);
      var leaf :| leaf in leaves && stage(leaf) == late;
      assert asks(leaf) !in Knows(earlier);
    }
  }

  /** The tree with each leaf replaced by the stage answering it. */
  function Stages<L>(rule: Rule<L>, stage: L -> Judged): Rule<Judged>
    decreases rule
  {
    match rule
    case Require(leaf) => Require(stage(leaf))
    case CountOf(count, rules) => CountOf(count, StagesAll(rules, stage))
  }

  function StagesAll<L>(rules: seq<Rule<L>>, stage: L -> Judged): (s: seq<Rule<Judged>>)
    ensures |s| == |rules|
    ensures forall i :: 0 <= i < |rules| ==> s[i] == Stages(rules[i], stage)
    decreases rules
  {
    if rules == [] then [] else [Stages(rules[0], stage)] + StagesAll(rules[1..], stage)
  }

  ghost function StageSet<L>(rule: Rule<L>, stage: L -> Judged): set<Judged> {
    set leaf <- Leaves(rule) :: stage(leaf)
  }

  /** The walk that places a rule: two flags and an early return over its leaves. */
  method JudgeRule<L>(rule: Rule<L>, stage: L -> Judged) returns (judged: Judged)
    ensures judged == Place(StageSet(rule, stage))
  {
    var leaves := CollectLeaves(rule);
    var state, evidence := false, false;
    for i := 0 to |leaves|
      invariant forall j :: 0 <= j < i ==> stage(leaves[j]) != InTheLeg
      invariant state <==> exists j :: 0 <= j < i && stage(leaves[j]) == AtMaterialization
      invariant evidence <==> exists j :: 0 <= j < i && stage(leaves[j]) == AtAdmission
    {
      match stage(leaves[i])
      case InTheLeg =>
        assert leaves[i] in Leaves(rule);
        return InTheLeg;
      case AtMaterialization => state := true;
      case AtAdmission => evidence := true;
    }
    judged := if state && evidence then InTheLeg else if state then AtMaterialization else AtAdmission;
  }

  lemma {:induction false} LeavesOfStages<L>(rule: Rule<L>, stage: L -> Judged)
    ensures |Leaves(Stages(rule, stage))| == |Leaves(rule)|
    ensures forall i :: 0 <= i < |Leaves(rule)| ==> Leaves(Stages(rule, stage))[i] == stage(Leaves(rule)[i])
    decreases rule
  {
    match rule
    case Require(_) =>
    case CountOf(_, rules) => LeavesOfStagesAll(rules, stage);
  }

  lemma {:induction false} LeavesOfStagesAll<L>(rules: seq<Rule<L>>, stage: L -> Judged)
    ensures |LeavesAll(StagesAll(rules, stage))| == |LeavesAll(rules)|
    ensures forall i :: 0 <= i < |LeavesAll(rules)| ==>
      LeavesAll(StagesAll(rules, stage))[i] == stage(LeavesAll(rules)[i])
    decreases rules
  {
    if rules != [] {
      LeavesOfStages(rules[0], stage);
      LeavesOfStagesAll(rules[1..], stage);
      assert StagesAll(rules, stage)[1..] == StagesAll(rules[1..], stage);
    }
  }

  /** Two rules whose stage trees agree are judged at one stage, whatever their leaves are. */
  lemma {:induction false} TwinsAreJudgedTogether<L, M>(
      rule: Rule<L>, stage: L -> Judged, twin: Rule<M>, twinStage: M -> Judged)
    requires Stages(rule, stage) == Stages(twin, twinStage)
    ensures StageSet(rule, stage) == StageSet(twin, twinStage)
  {
    LeavesOfStages(rule, stage);
    LeavesOfStages(twin, twinStage);
    var a, b, s := Leaves(rule), Leaves(twin), Leaves(Stages(rule, stage));
    forall x | x in StageSet(rule, stage) ensures x in StageSet(twin, twinStage) {
      var i :| 0 <= i < |a| && stage(a[i]) == x;
      assert s[i] == twinStage(b[i]) && b[i] in b;
    }
    forall x | x in StageSet(twin, twinStage) ensures x in StageSet(rule, stage) {
      var i :| 0 <= i < |b| && twinStage(b[i]) == x;
      assert s[i] == stage(a[i]) && a[i] in a;
    }
  }

  /** Two rules whose stage trees agree are within the caps together. */
  lemma {:induction false} TwinsAreWithinCapsTogether<L>(rule: Rule<L>, stage: L -> Judged, depth: nat)
    ensures WithinCaps(Stages(rule, stage), depth) <==> WithinCaps(rule, depth)
    decreases rule
  {
    match rule
    case Require(_) =>
    case CountOf(_, rules) =>
      LeavesOfStages(rule, stage);
      var twins := StagesAll(rules, stage);
      forall i | 0 <= i < |rules|
        ensures WithinCaps(twins[i], depth + 1) <==> WithinCaps(rules[i], depth + 1)
        ensures IsConstant(twins[i]) <==> IsConstant(rules[i])
      {
        TwinsAreWithinCapsTogether(rules[i], stage, depth + 1);
      }
  }

  // ------------------------------------------------------------ mapping leaves

  /** The same tree with every leaf mapped, refused at the first leaf that is. */
  function MapLeaves<L, T, E>(rule: Rule<L>, f: L -> Result<T, E>): Result<Rule<T>, E>
    decreases rule
  {
    match rule
    case Require(leaf) => var t :- f(leaf); Ok(Require(t))
    case CountOf(count, rules) => var mapped :- MapLeavesAll(rules, f); Ok(CountOf(count, mapped))
  }

  function MapLeavesAll<L, T, E>(rules: seq<Rule<L>>, f: L -> Result<T, E>): (r: Result<seq<Rule<T>>, E>)
    ensures r.Ok? ==> |r.value| == |rules|
    decreases rules
  {
    if rules == [] then Ok([])
    else
      var first :- MapLeaves(rules[0], f);
      var rest :- MapLeavesAll(rules[1..], f);
      Ok([first] + rest)
  }

  /** A leaf mapping that keeps each leaf's stage keeps the whole stage tree. */
  lemma {:induction false} MappingKeepsStages<L(!new), T, E>(
    rule: Rule<L>, f: L -> Result<T, E>, stage: L -> Judged, mappedStage: T -> Judged)
    requires forall leaf :: f(leaf).Ok? ==> mappedStage(f(leaf).value) == stage(leaf)
    ensures MapLeaves(rule, f).Ok? ==> Stages(MapLeaves(rule, f).value, mappedStage) == Stages(rule, stage)
    decreases rule
  {
    match rule
    case Require(_) =>
    case CountOf(_, rules) => MappingKeepsStagesAll(rules, f, stage, mappedStage);
  }

  lemma {:induction false} MappingKeepsStagesAll<L(!new), T, E>(
    rules: seq<Rule<L>>, f: L -> Result<T, E>, stage: L -> Judged, mappedStage: T -> Judged)
    requires forall leaf :: f(leaf).Ok? ==> mappedStage(f(leaf).value) == stage(leaf)
    ensures MapLeavesAll(rules, f).Ok? ==>
      StagesAll(MapLeavesAll(rules, f).value, mappedStage) == StagesAll(rules, stage)
    decreases rules
  {
    if rules != [] {
      MappingKeepsStages(rules[0], f, stage, mappedStage);
      MappingKeepsStagesAll(rules[1..], f, stage, mappedStage);
    }
  }

  // ------------------------------------------------------------------- stages

  function RuleLeafStage(leaf: RuleLeaf): Judged {
    match leaf
    case NamedClaim(_) => AtAdmission
    case StoredAt(_) => InTheLeg
    case PresenceOf(_, _) => AtMaterialization
  }

  function JudgedLeafStage(leaf: JudgedLeaf): Judged {
    match leaf
    case JudgedClaim(_) => AtAdmission
    case JudgedStored(_) => InTheLeg
    case JudgedPresence(_, _) => AtMaterialization
    case JudgedSigned(_, _) => AtMaterialization
  }

  /** A claim is evidence, a stored rule is read in the session, and a standing fact is committed state. */
  function AskedOf(leaf: JudgedLeaf): Source {
    match leaf
    case JudgedClaim(_) => Evidence
    case JudgedStored(_) => Session
    case JudgedPresence(_, _) => Committed
    case JudgedSigned(_, _) => Committed
  }

  function AskedBy(leaf: RuleLeaf): Source {
    match leaf
    case NamedClaim(_) => Evidence
    case StoredAt(_) => Session
    case PresenceOf(_, _) => Committed
  }

  /** Authored or evaluated, a rule is judged at the earliest stage that can answer it. */
  lemma {:induction false} JudgmentIsEarliest(rule: RuleExpr, judged: Rule<JudgedLeaf>)
    ensures AnswersFirst(Leaves(rule), AskedBy, Place(StageSet(rule, RuleLeafStage)))
    ensures AnswersFirst(Leaves(judged), AskedOf, Place(StageSet(judged, JudgedLeafStage)))
  {
    forall leaf <- Leaves(rule) ensures AnswersFirst([leaf], AskedBy, RuleLeafStage(leaf)) {
      assert leaf in [leaf];
    }
    forall leaf <- Leaves(judged) ensures AnswersFirst([leaf], AskedOf, JudgedLeafStage(leaf)) {
      assert leaf in [leaf];
    }
    RulesAreJudgedFirst(rule, AskedBy, RuleLeafStage);
    RulesAreJudgedFirst(judged, AskedOf, JudgedLeafStage);
  }

  // -------------------------------------------------------------- stored rules

  /** The claims a stored rule asks about, or nothing where it asks about a holding. */
  function ClaimsOnly(rule: StoredRule): Option<Rule<Claim>> {
    var mapped := MapLeaves(rule, (leaf: SealedLeaf) => if leaf.ClaimLeaf? then Ok(leaf.claim) else Err(()));
    if mapped.Ok? then Some(mapped.value) else None
  }
}
