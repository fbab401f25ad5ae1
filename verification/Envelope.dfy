/** One envelope's signatures, evaluated in turn against one shared meter. */
module Envelope {
  import opened Sequences
  import opened Syntax
  import opened Evaluation
  import opened Clauses
  import opened Targets
  import opened Metering
  import opened ClauseEvaluator

  /** One node's evaluation: a signature's clauses and what they are evaluated over. */
  datatype Node = Node(clauses: seq<Clause>, env: Inputs)

  ghost function Verdict(node: Node): Priced<Declaration> { Declares(node.clauses, PartsOf(node.env)) }

  /** The node's signature evaluates on an envelope of its own. */
  ghost predicate SucceedsAlone(node: Node) {
    Verdict(node).result.Ok? && Verdict(node).units <= MAX_EVALUATION_WORK
  }

  ghost function TotalWork(nodes: seq<Node>): nat {
    if nodes == [] then 0 else Verdict(nodes[0]).units + TotalWork(nodes[1..])
  }

  ghost predicate Admissible(nodes: seq<Node>) {
    && (forall i :: 0 <= i < |nodes| ==> SucceedsAlone(nodes[i]))
    && TotalWork(nodes) <= MAX_ENVELOPE_EVALUATION_WORK
  }

  lemma {:induction false} TotalWorkSplits(nodes: seq<Node>, i: nat)
    requires i < |nodes|
    ensures TotalWork(nodes) == Verdict(nodes[i]).units + TotalWork(Without(nodes, i))
    decreases i
  {
    hide Verdict;
    if i == 0 {
      assert Without(nodes, 0) == nodes[1..];
    } else {
      TotalWorkSplits(nodes[1..], i - 1);
      assert nodes[1..][i - 1] == nodes[i];
      assert Without(nodes, i)[0] == nodes[0] && Without(nodes, i)[1..] == Without(nodes[1..], i - 1);
    }
  }

  lemma {:induction false} TotalWorkIgnoresOrder(a: seq<Node>, b: seq<Node>)
    requires multiset(a) == multiset(b)
    ensures TotalWork(a) == TotalWork(b)
    decreases |a|
  {
    hide Verdict;
    if a == [] {
      assert |multiset(b)| == 0;
    } else {
      var i := FirstOfPermutation(a, b);
      TotalWorkSplits(b, i);
      TotalWorkIgnoresOrder(a[1..], Without(b, i));
    }
  }

  /** Any order of the same evaluations is accepted or refused alike. */
  lemma {:induction false} AdmissionIgnoresOrder(a: seq<Node>, b: seq<Node>)
    requires multiset(a) == multiset(b)
    ensures Admissible(a) <==> Admissible(b)
  {
    hide Verdict, SucceedsAlone;
    TotalWorkIgnoresOrder(a, b);
    forall i | 0 <= i < |a| ensures a[i] in b {
      assert a[i] in multiset(a);
    }
    forall i | 0 <= i < |b| ensures b[i] in a {
      assert b[i] in multiset(b);
    }
  }

  lemma {:induction false} TotalWorkAppend(nodes: seq<Node>, i: nat)
    requires i < |nodes|
    ensures TotalWork(nodes[..i + 1]) == TotalWork(nodes[..i]) + Verdict(nodes[i]).units
  {
    hide Verdict;
    TotalWorkSplits(nodes[..i + 1], i);
    assert Without(nodes[..i + 1], i) == nodes[..i];
  }

  /** A longer run never costs less. */
  lemma {:induction false} TotalWorkGrows(nodes: seq<Node>, i: nat)
    requires i <= |nodes|
    ensures TotalWork(nodes[..i]) <= TotalWork(nodes)
    decreases |nodes| - i
  {
    hide Verdict;
    if i == |nodes| {
      assert nodes[..i] == nodes;
    } else {
      TotalWorkAppend(nodes, i);
      TotalWorkGrows(nodes, i + 1);
    }
  }

  /** A run of evaluations on one shared meter all succeed exactly when each succeeds on its
      own and their work sums within the envelope's bound. */
  method EvaluateAll(nodes: seq<Node>) returns (ok: bool, envelope: EvalBudget)
    ensures fresh(envelope) && envelope.ceiling == MAX_ENVELOPE_EVALUATION_WORK
    ensures ok <==> Admissible(nodes)
    ensures ok ==> envelope.spent == TotalWork(nodes)
  {
    hide Verdict, Declares, PartsOf;
    envelope := new EvalBudget();
    assert nodes[..0] == [];
    for i := 0 to |nodes|
      invariant fresh(envelope) && envelope.ceiling == MAX_ENVELOPE_EVALUATION_WORK
      invariant envelope.spent == TotalWork(nodes[..i]) <= MAX_ENVELOPE_EVALUATION_WORK
      invariant forall j :: 0 <= j < i ==> SucceedsAlone(nodes[j])
    {
      TotalWorkAppend(nodes, i);
      TotalWorkGrows(nodes, i + 1);
      var r := EvaluateNode(nodes[i], envelope);
      if !r {
        return false, envelope;
      }
    }
    assert nodes[..|nodes|] == nodes;
    ok := true;
  }

  method EvaluateNode(node: Node, envelope: EvalBudget) returns (ok: bool)
    requires envelope.spent <= envelope.ceiling
    modifies envelope`spent
    ensures ok <==> SucceedsAlone(node) && old(envelope.spent) + Verdict(node).units <= envelope.ceiling
    ensures ok ==> envelope.spent == old(envelope.spent) + Verdict(node).units
  {
    hide Declares, PartsOf;
    var r, out, budget := EvaluateDeclaration(node.clauses, node.env, envelope);
    ok := r.Ok?;
  }
}
