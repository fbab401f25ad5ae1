/** The static shapes a signature is read as, and what each promises of every evaluation. */
module Shapes {
  import opened Vocabulary
  import opened Syntax
  import opened Evaluation
  import opened Clauses
  import opened Numbering
  import opened Firings
  import opened Alignment
  import opened Targets
  import opened Readings
  import opened Declarations

  datatype ParamType = BucketParam | OtherParam

  datatype AbiParam = HandleParam(clause: Word32, site: Word32) | BucketOf(index: Word32) | OtherAbi

  /** A method's signature, in the parts its shape is read off. */
  datatype Signature = Signature(params: seq<ParamType>, abi: seq<AbiParam>, effects: seq<Clause>,
                                 outputs: nat, issues: nat, destroys: nat, declines: bool, answers: bool)

  /** An access line that moves value. */
  predicate MovesValue(line: Clause) { line.Access? && line.mode.Directions().Some? }

  // ------------------------------------------------------------------ commits nothing

  predicate CommitsNothing(sig: Signature) {
    && sig.outputs == sig.issues == sig.destroys == 0
    && forall i :: 0 <= i < |Lines(sig.effects)| ==> !MovesValue(Lines(sig.effects)[i])
  }

  /** A method that commits nothing evaluates to reads alone, on every call. */
  lemma {:induction false} CommittingNothingOnlyReads(sig: Signature, env: Inputs, d: Declaration, p: nat)
    requires CommitsNothing(sig) && Declares(sig.effects, PartsOf(env)).result == Ok(d) && p < |d.draft.ordered|
    ensures d.draft.ordered[p].effect.mode == Read
  {
    hide PartsOf;
    var a, line, bindings := LineOfAccess(sig.effects, env, d, p);
  }

  /** Committing nothing is giving, issuing and destroying nothing and declaring reads alone. */
  lemma {:induction false} CommittingNothingIsReading(sig: Signature)
    ensures CommitsNothing(sig) <==>
            && sig.outputs == 0 && sig.issues == 0 && sig.destroys == 0
            && forall line <- Lines(sig.effects) :: line.Access? ==> line.mode == ReadMode
  {
    if forall line <- Lines(sig.effects) :: line.Access? ==> line.mode == ReadMode {
      forall i | 0 <= i < |Lines(sig.effects)| ensures !MovesValue(Lines(sig.effects)[i]) {
        assert Lines(sig.effects)[i] in Lines(sig.effects);
      }
    }
  }

  /** The line an evaluated access came from, over which elements, and what it is of: the target
      and the mode its expressions tell there. */
  lemma {:induction false} LineOfAccess(effects: seq<Clause>, env: Inputs, d: Declaration, p: nat)
    returns (a: DeclaredAccess, line: nat, bindings: seq<Value>)
    requires Declares(effects, PartsOf(env)).result == Ok(d) && p < |d.draft.ordered|
    ensures a == d.draft.ordered[p] && line < |Lines(effects)| && Lines(effects)[line].Access?
    ensures a.clause == Stamp(line)
    ensures TellsMode(Lines(effects)[line].mode, env, bindings, a.effect.mode)
    ensures TellsTarget(Lines(effects)[line].target, env, bindings, a.effect.target)
    ensures a.reach.Some? <==> Lines(effects)[line].reach.Some?
  {
    hide PartsOf, Made, TellsTarget, TellsMode;
    a := d.draft.ordered[p];
    var f := AccessesAreListed(effects, PartsOf(env), d, p);
    line, bindings := f.line, f.bindings;
    FiringsTell(env, f, Made(PartsOf(env), f).value);
  }

  // -------------------------------------------------------------- reservation shaped

  /** A line that only reserves, under nobody's reach. */
  predicate Reserves(line: Clause) { line.Access? && line.mode.ReserveMode? && line.reach.None? }

  function Reservations(lines: seq<Clause>): nat {
    if lines == [] then 0 else (if Reserves(lines[0]) then 1 else 0) + Reservations(lines[1..])
  }

  predicate IsReservationShaped(sig: Signature) {
    && sig.issues == sig.destroys == 0 && sig.outputs == 1
    && (forall i :: 0 <= i < |Lines(sig.effects)| && MovesValue(Lines(sig.effects)[i]) ==>
        Reserves(Lines(sig.effects)[i]))
    && Reservations(Lines(sig.effects)) == 1
  }

  /** Where one line of them reserves, and whatever else is declared is read. */
  ghost predicate OnlyReserveAt(lines: seq<Clause>, i: nat) {
    && i < |lines| && lines[i].Access? && lines[i].mode.ReserveMode? && lines[i].reach.None?
    && forall j :: 0 <= j < |lines| && j != i && lines[j].Access? ==> lines[j].mode == ReadMode
  }

  /** A reservation is shaped so exactly where it gives one output, issues and destroys nothing, and
      one of its lines reserves under nobody's reach while every other access reads. */
  lemma {:induction false} ReservationsAreOneLine(sig: Signature)
    ensures IsReservationShaped(sig) <==>
            && sig.outputs == 1 && sig.issues == 0 && sig.destroys == 0
            && exists i: nat :: OnlyReserveAt(Lines(sig.effects), i)
  {
    var lines := Lines(sig.effects);
    hide Lines;
    if IsReservationShaped(sig) {
      var i := OneReserves(lines);
      forall j | 0 <= j < |lines| && j != i && lines[j].Access? ensures lines[j].mode == ReadMode {
        assert !Reserves(lines[j]);
      }
      assert OnlyReserveAt(lines, i);
    }
    if i: nat :| OnlyReserveAt(lines, i) {
      forall j | 0 <= j < |lines| && j != i
        ensures !Reserves(lines[j]) && !MovesValue(lines[j])
      {}
      var after := lines[i + 1..];
      forall j | 0 <= j < |after| ensures !Reserves(after[j]) {
        assert after[j] == lines[i + 1 + j];
      }
      NoneReserve(lines[..i]);
      NoneReserve(lines[i + 1..]);
      assert lines == lines[..i] + ([lines[i]] + lines[i + 1..]);
      ReservationsAppend(lines[..i], [lines[i]] + lines[i + 1..]);
      assert ([lines[i]] + lines[i + 1..])[1..] == lines[i + 1..];
    }
  }

  lemma {:induction false} NoneReserve(lines: seq<Clause>)
    requires forall j :: 0 <= j < |lines| ==> !Reserves(lines[j])
    ensures Reservations(lines) == 0
    decreases |lines|
  {
    if lines != [] {
      NoneReserve(lines[1..]);
    }
  }

  lemma {:induction false} NoReserves(lines: seq<Clause>)
    requires Reservations(lines) == 0
    ensures forall j :: 0 <= j < |lines| ==> !Reserves(lines[j])
    decreases |lines|
  {
    if lines != [] {
      NoReserves(lines[1..]);
      assert forall j :: 0 < j < |lines| ==> lines[j] == lines[1..][j - 1];
    }
  }

  lemma {:induction false} OneReserves(lines: seq<Clause>) returns (i: nat)
    requires Reservations(lines) == 1
    ensures i < |lines| && Reserves(lines[i])
    ensures forall j :: 0 <= j < |lines| && j != i ==> !Reserves(lines[j])
    decreases |lines|
  {
    assert forall j :: 0 < j < |lines| ==> lines[j] == lines[1..][j - 1];
    if Reserves(lines[0]) {
      i := 0;
      NoReserves(lines[1..]);
    } else {
      i := OneReserves(lines[1..]);
      i := i + 1;
    }
  }

  lemma {:induction false} ReservationsAppend(a: seq<Clause>, b: seq<Clause>)
    ensures Reservations(a + b) == Reservations(a) + Reservations(b)
    decreases |a|
  {
    if a == [] {
      assert a + b == b;
    } else {
      assert (a + b)[1..] == a[1..] + b;
      ReservationsAppend(a[1..], b);
    }
  }

  /** The walk that counts reserves and stops at the first other movement. */
  method JudgeReservation(sig: Signature) returns (shaped: bool)
    ensures shaped <==> IsReservationShaped(sig)
  {
    if sig.issues != 0 || sig.destroys != 0 || sig.outputs != 1 {
      return false;
    }
    var reserves := 0;
    assert Lines(sig.effects[..0]) == [];
    for i := 0 to |sig.effects|
      invariant reserves == Reservations(Lines(sig.effects[..i]))
      invariant forall j :: 0 <= j < |Lines(sig.effects[..i])| && MovesValue(Lines(sig.effects[..i])[j]) ==>
                              Reserves(Lines(sig.effects[..i])[j])
    {
      var fine, counted := JudgeLines(sig.effects[i]);
      ghost var before, lines := Lines(sig.effects[..i]), LinesOf(sig.effects[i]);
      LinesOfPrefix(sig.effects, i);
      ReservationsAppend(before, lines);
      if !fine {
        ghost var j :| 0 <= j < |lines| && MovesValue(lines[j]) && !Reserves(lines[j]);
        assert Lines(sig.effects)[|before| + j] == lines[j];
        return false;
      }
      reserves := reserves + counted;
    }
    assert sig.effects[..|sig.effects|] == sig.effects;
    shaped := reserves == 1;
  }

  method JudgeLines(clause: Clause) returns (fine: bool, counted: nat)
    ensures fine <==> forall j :: 0 <= j < |LinesOf(clause)| && MovesValue(LinesOf(clause)[j]) ==>
            Reserves(LinesOf(clause)[j])
    ensures fine ==> counted == Reservations(LinesOf(clause))
  {
    var lines := WalkClause(clause);
    counted := 0;
    assert lines[..0] == [];
    for j := 0 to |lines|
      invariant counted == Reservations(lines[..j])
      invariant forall k :: 0 <= k < j && MovesValue(lines[k]) ==> Reserves(lines[k])
    {
      assert lines[..j + 1] == lines[..j] + [lines[j]];
      ReservationsAppend(lines[..j], [lines[j]]);
      assert Reservations([lines[j]]) == (if Reserves(lines[j]) then 1 else 0) + Reservations([lines[j]][1..]);
      var line := lines[j];
      if !line.Access? || line.mode.Directions().None? {
        continue;
      }
      if !(line.mode.ReserveMode? && line.reach.None?) {
        return false, counted;
      }
      counted := counted + 1;
    }
    assert lines[..|lines|] == lines;
    fine := true;
  }

  /** Two reserving lines are counted twice. */
  lemma {:induction false} TwoReservations(lines: seq<Clause>, i: nat, j: nat)
    requires i < j < |lines| && Reserves(lines[i]) && Reserves(lines[j])
    ensures Reservations(lines) >= 2
  {
    var front, mid, back := lines[..i], lines[i + 1..j], lines[j + 1..];
    assert lines == front + ([lines[i]] + (mid + ([lines[j]] + back)));
    ReservationsAppend(front, [lines[i]] + (mid + ([lines[j]] + back)));
    ReservationsAppend([lines[i]], mid + ([lines[j]] + back));
    ReservationsAppend(mid, [lines[j]] + back);
    ReservationsAppend([lines[j]], back);
    assert forall line :: Reserves(line) ==> Reservations([line]) == 1 + Reservations([line][1..]);
  }

  /** Every movement of a reservation-shaped method is a reserve of its own cells, and all of
      them are evaluations of the one reserving line. */
  lemma {:induction false} ReservationsOnlyReserve(sig: Signature, env: Inputs, d: Declaration, p: nat, q: nat)
    requires IsReservationShaped(sig) && Declares(sig.effects, PartsOf(env)).result == Ok(d)
    requires p < |d.draft.ordered| && q < |d.draft.ordered|
    requires d.draft.ordered[p].effect.mode.Directions().Some? && d.draft.ordered[q].effect.mode.Directions().Some?
    ensures d.draft.ordered[p].effect.mode.Reserve? && d.draft.ordered[p].reach.None?
    ensures d.draft.ordered[p].clause == d.draft.ordered[q].clause
  {
    hide PartsOf;
    var a, i, over := LineOfAccess(sig.effects, env, d, p);
    var b, j, elsewhere := LineOfAccess(sig.effects, env, d, q);
    assert MovesValue(Lines(sig.effects)[i]) && MovesValue(Lines(sig.effects)[j]);
    if i < j {
      TwoReservations(Lines(sig.effects), i, j);
    } else if j < i {
      TwoReservations(Lines(sig.effects), j, i);
    }
  }

  // ------------------------------------------------------------------- vault deposits

  const BUCKET_RESOURCE: Expr := ResourceOf(Arg(0))

  const VAULT_KEY: Expr := ChildKey(SelfAddr, Fixed(VAULT), [BUCKET_RESOURCE])

  /** The one clause a vault deposit declares. */
  const CREDIT: Clause := Access(None, PointAt(VAULT_KEY), DeltaMode(In), Some(BUCKET_RESOURCE), None)

  predicate IsVaultDeposit(sig: Signature) {
    && !sig.declines && !sig.answers
    && sig.params == [BucketParam]
    && sig.abi == [HandleParam(0, 0), BucketOf(0)]
    && sig.effects == [CREDIT]
    && sig.outputs == sig.issues == sig.destroys == 0
  }

  /** A vault deposit is one signature and no other. */
  lemma {:induction false} DepositsHaveOneShape(sig: Signature)
    ensures IsVaultDeposit(sig) <==>
            sig == Signature([BucketParam], [HandleParam(0, 0), BucketOf(0)], [CREDIT], 0, 0, 0, false, false)
  {}

  lemma {:induction false} BucketResourceReads(env: Inputs, depth: nat)
    requires |env.args| > 0 && env.args[0].VBucket? && depth < MAX_EXPR_DEPTH
    ensures Eval(BUCKET_RESOURCE, env, [], depth) == Priced(Ok(Answer(VAddress(env.args[0].resource), false)), 3)
  {
    assert Eval(Arg(0), env, [], depth + 1) == Priced(Ok(Answer(env.args[0], true)), 1);
    assert Build(BUCKET_RESOURCE, env, [], depth + 1) == ReadFrom(BUCKET_RESOURCE, Eval(Arg(0), env, [], depth + 1));
  }

  lemma {:induction false} BucketMaterialReads(env: Inputs, depth: nat)
    requires |env.args| > 0 && env.args[0].VBucket? && depth < MAX_EXPR_DEPTH
    ensures EvalMaterial([BUCKET_RESOURCE], env, [], depth) ==
            Priced(Ok([env.seam.encode(VAddress(env.args[0].resource))]), 4)
  {
    hide Eval;
    BucketResourceReads(env, depth);
    var encoded := env.seam.encode(VAddress(env.args[0].resource));
    assert [BUCKET_RESOURCE][1..] == [] && [encoded] + [] == [encoded];
    assert EvalMaterial([BUCKET_RESOURCE][1..], env, [], depth) == Priced(Ok([]), 0);
  }

  lemma {:induction false} SelfReads(env: Inputs, depth: nat)
    requires depth <= MAX_EXPR_DEPTH
    ensures Eval(SelfAddr, env, [], depth) == Priced(Ok(Answer(VAddress(env.self), false)), 2)
  {}

  lemma {:induction false} VaultKeyBuilds(env: Inputs)
    requires |env.args| > 0 && env.args[0].VBucket?
    ensures Build(VAULT_KEY, env, [], 1) ==
            Priced(Ok(VKey(env.seam.VaultCell(env.self, env.args[0].resource))), 6)
  {
    hide Eval, EvalMaterial;
    BucketMaterialReads(env, 1);
    SelfReads(env, 1);
    assert Build(VAULT_KEY, env, [], 1) ==
           ChildFrom(env, Eval(SelfAddr, env, [], 1), EvalSlot(Fixed(VAULT), true, env, [], 1),
                     EvalMaterial([BUCKET_RESOURCE], env, [], 1));
  }

  lemma {:induction false} VaultKeyReads(env: Inputs)
    requires |env.args| > 0 && env.args[0].VBucket?
    ensures Eval(VAULT_KEY, env, [], 0) ==
            Priced(Ok(Answer(VKey(env.seam.VaultCell(env.self, env.args[0].resource)), false)), 16)
  {
    hide Build;
    VaultKeyBuilds(env);
    assert Answered(VAULT_KEY, env, [], 1) == Owned(Build(VAULT_KEY, env, [], 1));
  }

  /** A vault deposit of any bucket evaluates, for nineteen units of work, to exactly one
      inbound movement, of the bucket's own resource, at the vault cell the instance keeps
      that resource in. */
  lemma {:induction false} DepositsCreditTheVault(sig: Signature, env: Inputs)
    requires IsVaultDeposit(sig)
    requires |env.args| > 0 && env.args[0].VBucket?
    ensures var declared := Declares(sig.effects, PartsOf(env));
            var cell := env.seam.VaultCell(env.self, env.args[0].resource);
            && declared.units == 19 && declared.result.Ok?
            && declared.result.value.draft.ordered ==
               [DeclaredAccess(Effect(Point(cell), Delta(In)), Some(env.args[0].resource), None, 0)]
            && declared.result.value.draft.taken == [true]
  {
    hide PartsOf, RunClause;
    var parts, resource := PartsOf(env), env.args[0].resource;
    CreditIsPlaced(env);
    CreditRuns(parts, env.seam.VaultCell(env.self, resource), resource, env.widths(VAULT));
    var first := Bracketed(CREDIT, 0, parts, BLANK, []);
    assert first.result.Ok? && first.units == 19;
    assert sig.effects[0] == CREDIT && sig.effects[1..] == [];
    assert RunFrom(sig.effects[1..], 1, parts, first.result.value.draft, first.result.value.spans) ==
           Priced(Ok(first.result.value), 0);
  }

  lemma {:induction false} CreditIsPlaced(env: Inputs)
    requires |env.args| > 0 && env.args[0].VBucket?
    ensures PartsOf(env).placed(PointAt(VAULT_KEY), DeltaMode(In), []) ==
            Priced(Ok(Placed(Point(env.seam.VaultCell(env.self, env.args[0].resource)), env.widths(VAULT), Delta(In))),
                   16)
    ensures PartsOf(env).borne(PointAt(VAULT_KEY), Some(BUCKET_RESOURCE), None, []) ==
            Priced(Ok(Borne(Some(env.args[0].resource), None)), 3)
  {
    hide Eval;
    VaultKeyReads(env);
    BucketResourceReads(env, 0);
  }

  lemma {:induction false} CreditRuns(parts: Parts, cell: SubstateKey, resource: ResourceAddr, width: Word32)
    requires parts.placed(PointAt(VAULT_KEY), DeltaMode(In), []) ==
            Priced(Ok(Placed(Point(cell), width, Delta(In))), 16)
    requires parts.borne(PointAt(VAULT_KEY), Some(BUCKET_RESOURCE), None, []) ==
            Priced(Ok(Borne(Some(resource), None)), 3)
    ensures var run := RunClause(CREDIT, parts, [], 0, 0, BLANK);
            && run.units == 19 && run.result.Ok?
            && run.result.value.ordered == [DeclaredAccess(Effect(Point(cell), Delta(In)), Some(resource), None, 0)]
            && run.result.value.taken == [true]
  {
    var entered := BLANK.(preorder := 1, taken := [true]);
    assert BLANK.taken + [true] == [true];
    assert RunClause(CREDIT, parts, [], 0, 0, BLANK) == RunAccess(CREDIT, parts, [], 0, entered).Plus(0);
  }
}
