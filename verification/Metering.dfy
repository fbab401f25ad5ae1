/** The two work meters, and what reaching a verdict under them means. */
module Metering {
  import opened Vocabulary
  import opened Evaluation

  const MAX_EVALUATION_WORK: nat := 65_536
  const MAX_ENVELOPE_EVALUATION_WORK: nat := 2_097_152

  /** A bound on a meter, below where the meter's own arithmetic stops. */
  type Ceiling = n: nat | n < MAX_WORD64

  /** The bounds on one signature's evaluation and on a whole envelope's. */
  datatype Limits = Limits(signature: Ceiling, envelope: Ceiling)

  /** Where an evaluation's two meters stand, and how many subterms it has evaluated. */
  datatype Meter = Meter(limits: Limits, spent: nat, envelope: nat, evaluated: nat) {
    /** Whether both meters take `units` more and stay within their ceilings. */
    predicate Affords(units: nat) {
      && spent + units <= limits.signature
      && envelope + units <= limits.envelope
    }

    /** A refusal one of the meters spoke: the meter it names is the one past its ceiling. */
    predicate Spoke(error: EvalError) {
      || (error == TooMuchWork && spent > limits.signature)
      || (error == EnvelopeTooMuchWork && spent <= limits.signature && envelope > limits.envelope)
    }
  }

  /** From `m`, the metered verdict `r` is the unmetered one exactly where its cost
      fits, and then both meters stand at exactly that much more. */
  ghost predicate Settles<T>(m: Meter, p: Priced<T>, r: Outcome<T>, m': Meter) {
    if p.units == 0 || m.Affords(p.units) then
      && r == p.result
      && m'.spent == m.spent + p.units
      && m'.envelope == m.envelope + p.units
      && m.evaluated <= m'.evaluated <= m.evaluated + p.units
    else r.Err? && m'.Spoke(r.error)
  }

  /** An answer is given exactly where the unmetered evaluation gives it and both meters have
      room for what it costs. */
  lemma {:induction false} AnsweredExactlyWithRoom<T>(m: Meter, p: Priced<T>, r: Outcome<T>, m': Meter, answer: T)
    requires Settles(m, p, r, m')
    ensures r == Ok(answer) <==> p.result == Ok(answer) && (p.units == 0 || m.Affords(p.units))
    ensures r.Ok? && m.spent <= m.limits.signature && m.envelope <= m.limits.envelope ==>
              m'.spent <= m.limits.signature && m'.envelope <= m.limits.envelope
  {}

  /** Raising a ceiling never changes an answer, nor where the meters stand after it. */
  lemma {:induction false} RaisingACeilingKeepsAnswers<T>(
    m: Meter, p: Priced<T>, r: Outcome<T>, m': Meter, wider: Limits, s: Outcome<T>, w: Meter)
    requires Settles(m, p, r, m') && r.Ok?
    requires m.limits.signature <= wider.signature && m.limits.envelope <= wider.envelope
    requires Settles(m.(limits := wider), p, s, w)
    ensures s == r && w.spent == m'.spent && w.envelope == m'.envelope
  {}

  /** What admitting one envelope has spent, across every node in it. */
  class EvalBudget {
    var spent: nat
    const ceiling: Ceiling

    constructor (ceiling: Ceiling := MAX_ENVELOPE_EVALUATION_WORK)
      ensures spent == 0 && this.ceiling == ceiling
    {
      spent := 0;
      this.ceiling := ceiling;
    }

    method Spend(units: nat) returns (r: Outcome<()>)
      modifies this`spent
      ensures spent == SaturatingAdd64(old(spent), units)
      ensures r == if spent > ceiling then Err(EnvelopeTooMuchWork) else Ok(())
    {
      spent := SaturatingAdd64(spent, units);
      if spent > ceiling {
        return Err(EnvelopeTooMuchWork);
      }
      r := Ok(());
    }
  }

  /** One signature evaluation's allowance, reporting into its envelope's. */
  class Budget {
    var clauseDepth: nat
    var work: nat
    var spent: nat
    var clause: Word32
    var preorder: Word32
    const ceiling: Ceiling
    const envelope: EvalBudget
    /** How many subterms have been evaluated. */
    ghost var evaluated: nat

    constructor (envelope: EvalBudget, ceiling: Ceiling := MAX_EVALUATION_WORK)
      ensures clauseDepth == work == spent == clause == preorder == 0
      ensures this.envelope == envelope && this.ceiling == ceiling && evaluated == 0
    {
      clauseDepth, work, spent, clause, preorder, evaluated := 0, 0, 0, 0, 0, 0;
      this.envelope := envelope;
      this.ceiling := ceiling;
    }

    ghost function State(): Meter
      reads this, envelope
    {
      Meter(Limits(ceiling, envelope.ceiling), spent, envelope.spent, evaluated)
    }

    /** Charge one clause or one loop iteration. */
    method Charge() returns (r: Outcome<()>)
      modifies this`work
      ensures work == old(work) + 1
      ensures r == if work > MAX_EFFECTS_PER_SIGNATURE then Err(TooManyEffects) else Ok(())
    {
      work := work + 1;
      if work > MAX_EFFECTS_PER_SIGNATURE {
        return Err(TooManyEffects);
      }
      r := Ok(());
    }

    /** Charge `units` of expression work to this meter and then to the envelope's. */
    method Spend(units: nat) returns (r: Outcome<()>)
      modifies this`spent, envelope`spent
      ensures units > 0 ==> Settles(old(State()), Priced(Ok(()), units), r, State())
      ensures r.Ok? <==> spent <= ceiling && envelope.spent <= envelope.ceiling
    {
      spent := SaturatingAdd64(spent, units);
      if spent > ceiling {
        return Err(TooMuchWork);
      }
      r := envelope.Spend(units);
    }
  }
}
