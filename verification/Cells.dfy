/** Crossing leaves: where a record and its answers sit, and reading one back off its key and value. */
module Cells {
  import opened Vocabulary
  import opened Syntax
  import Identity
  import Shapes
  import Targets
  import Evaluation
  import Clauses

  const ESCROW_RECORD_SLOT: Word16 := 0xFFFD
  const CROSSING_CLAIM_SLOT: Word16 := 0xFFFB
  const CROSSING_DECLINE_SLOT: Word16 := 0xFFFA

  datatype Kind = EscrowedKind | OwedKind

  /** What a record's departure promised of the value. */
  datatype Terms = Escrowed(credit: SubstateKey) | Owed {
    function Kind(): Kind { if Escrowed? then EscrowedKind else OwedKind }
  }

  datatype Answered = Taken | Never {
    function Slot(): Word16 { if Taken? then CROSSING_CLAIM_SLOT else CROSSING_DECLINE_SLOT }
  }

  datatype CrossingCell = CrossingCell(
    resource: ResourceAddr, amount: Word128, intent: Bytes, local: Word32, output: Word32,
    validityEnd: Word64, tx: Bytes, consumer: Address, terms: Terms)

  datatype CrossingAnswer = CrossingAnswer(tx: Bytes, intent: Bytes, local: Word32, output: Word32, producer: Address,
                                           answered: Answered, validityEnd: Word64, seen: bool)
  {
    /** This answer, its consumer's chain having carried the record present. */
    function SeenNow(): CrossingAnswer { this.(seen := true) }
  }

  /** The canonical codec of the two families: what it writes it reads back, and it reads nothing
      it would not write. Nothing keeps one family's bytes from reading as the other's. */
  datatype Codec = Codec(
    cell: CrossingCell -> Bytes, readCell: Bytes -> Option<CrossingCell>,
    answer: CrossingAnswer -> Bytes, readAnswer: Bytes -> Option<CrossingAnswer>)

  ghost predicate Canonical(codec: Codec) {
    && (forall b, c :: codec.readCell(b) == Some(c) <==> codec.cell(c) == b)
    && (forall b, a :: codec.readAnswer(b) == Some(a) <==> codec.answer(a) == b)
  }

  /** One crossing: the value edge, named by both ends. */
  datatype CrossingId = CrossingId(producer: Address, consumer: Address, intent: Bytes, local: Word32, output: Word32) {
    /** The crossing a record under `owner` names. */
    static function OfRecord(owner: Address, cell: CrossingCell): CrossingId {
      CrossingId(owner, cell.consumer, cell.intent, cell.local, cell.output)
    }

    /** The crossing an answer under `owner` names. */
    static function OfAnswer(owner: Address, answer: CrossingAnswer): CrossingId {
      CrossingId(answer.producer, owner, answer.intent, answer.local, answer.output)
    }

    function Material(): seq<Bytes> { [intent, Le32(local), Le32(output)] }

    /** The record's cell, under the producing node's target. */
    function RecordKey(seam: Seam): SubstateKey { seam.ChildKeyOf(producer, ESCROW_RECORD_SLOT, Material()) }

    /** The cell this crossing is answered at, under the consuming node's target. */
    function AnswerKey(seam: Seam, answered: Answered): SubstateKey {
      seam.ChildKeyOf(consumer, answered.Slot(), Material())
    }

    /** The cell an owed crossing's value lands in. */
    function OwedCredit(seam: Seam, resource: ResourceAddr): SubstateKey { seam.VaultCell(consumer, resource) }

    function Cell(tx: Bytes, resource: ResourceAddr, amount: Word128, validityEnd: Word64, terms: Terms): CrossingCell {
      CrossingCell(resource, amount, intent, local, output, validityEnd, tx, consumer, terms)
    }

    function Answer(tx: Bytes, answered: Answered, validityEnd: Word64): CrossingAnswer {
      CrossingAnswer(tx, intent, local, output, producer, answered, validityEnd, true)
    }

    function UnseenNever(tx: Bytes, validityEnd: Word64): CrossingAnswer {
      Answer(tx, Never, validityEnd).(seen := false)
    }

    /** Every value a cell answering this crossing for `tx` holds. */
    function AnswerValues(codec: Codec, tx: Bytes, validityEnd: Word64, answered: Answered): seq<Bytes> {
      var seen := codec.answer(Answer(tx, answered, validityEnd));
      if answered.Taken? then [seen] else [seen, codec.answer(UnseenNever(tx, validityEnd))]
    }

    predicate AnsweredBy(codec: Codec, tx: Bytes, validityEnd: Word64, answered: Answered, value: Bytes) {
      value in AnswerValues(codec, tx, validityEnd, answered)
    }
  }

  datatype CrossingLeaf =
    | Record(id: CrossingId, kind: Kind, cell: CrossingCell)
    | Response(id: CrossingId, answer: CrossingAnswer)

  function ReadRecord(codec: Codec, seam: Seam, key: SubstateKey, value: Bytes): Option<CrossingLeaf> {
    match codec.readCell(value)
    case None => None
    case Some(cell) =>
      var id := CrossingId.OfRecord(key.owner, cell);
      if id.RecordKey(seam) == key then Some(Record(id, cell.terms.Kind(), cell)) else None
  }

  function ReadAnswer(codec: Codec, seam: Seam, key: SubstateKey, value: Bytes): Option<CrossingLeaf> {
    match codec.readAnswer(value)
    case None => None
    case Some(answer) =>
      var id := CrossingId.OfAnswer(key.owner, answer);
      if id.AnswerKey(seam, answer.answered) == key then Some(Response(id, answer)) else None
  }

  /** What the leaf at `key` holding `value` is, the record arm tried first. */
  function Read(codec: Codec, seam: Seam, key: SubstateKey, value: Bytes): Option<CrossingLeaf> {
    var record := ReadRecord(codec, seam, key, value);
    if record.Some? then record else ReadAnswer(codec, seam, key, value)
  }

  /** Where a crossing is recorded and answered: under the producer, or under the consumer by how it
      was answered, at the hash of the slot, the intent, the node and its output, in that order. */
  lemma {:induction false} KeysAreTheirParts(id: CrossingId, seam: Seam, resource: ResourceAddr)
    ensures var under := (owner: Address, slot: Word16) =>
              SubstateKey(owner, seam.hash(ChildDomain, [owner.ToBytes(), Le16(slot), id.intent, Le32(id.local),
                                                         Le32(id.output)]));
            && id.RecordKey(seam) == under(id.producer, ESCROW_RECORD_SLOT)
            && id.AnswerKey(seam, Taken) == under(id.consumer, CROSSING_CLAIM_SLOT)
            && id.AnswerKey(seam, Never) == under(id.consumer, CROSSING_DECLINE_SLOT)
    ensures id.OwedCredit(seam, resource) ==
            SubstateKey(id.consumer, seam.hash(ChildDomain, [id.consumer.ToBytes(), Le16(VAULT),
                                                             seam.encode(VAddress(resource))]))
  {
    forall owner: Address, slot: Word16
      ensures [owner.ToBytes(), Le16(slot)] + id.Material() ==
              [owner.ToBytes(), Le16(slot), id.intent, Le32(id.local), Le32(id.output)] {}
    assert [id.consumer.ToBytes(), Le16(VAULT)] + [seam.encode(VAddress(resource))] ==
           [id.consumer.ToBytes(), Le16(VAULT), seam.encode(VAddress(resource))];
  }

  // ------------------------------------------------------------------ keys tell apart

  lemma {:induction false} SlotsTellApart(a: Word16, b: Word16)
    requires Le16(a) == Le16(b)
    ensures a == b
  {
    assert Le16(a)[0] == a % 0x100 && Le16(a)[1] == a / 0x100 && Le16(b)[0] == b % 0x100 && Le16(b)[1] == b / 0x100;
  }

  lemma {:induction false} IndicesTellApart(a: Word32, b: Word32)
    requires Le32(a) == Le32(b)
    ensures a == b
  {
    Identity.CountsTellApart(a, b);
  }

  /** A child key tells its owner, its slot and every part of its material. */
  lemma {:induction false} ChildKeysTellApart(
      seam: Seam, a: Address, s: Word16, m: seq<Bytes>, b: Address, t: Word16, n: seq<Bytes>)
    requires Identity.CollisionFree(seam.hash) && seam.ChildKeyOf(a, s, m) == seam.ChildKeyOf(b, t, n)
    ensures a == b && s == t && m == n
  {
    var p, q := [a.ToBytes(), Le16(s)] + m, [b.ToBytes(), Le16(t)] + n;
    assert p == q && p[1] == Le16(s) && q[1] == Le16(t) && p[2..] == m && q[2..] == n;
    SlotsTellApart(s, t);
  }

  lemma {:induction false} MaterialsTellApart(a: CrossingId, b: CrossingId)
    requires a.Material() == b.Material()
    ensures a.intent == b.intent && a.local == b.local && a.output == b.output
  {
    assert a.Material()[1] == b.Material()[1] && a.Material()[2] == b.Material()[2]
           && a.Material()[0] == b.Material()[0];
    IndicesTellApart(a.local, b.local);
    IndicesTellApart(a.output, b.output);
  }

  /** A record's cell is nobody's answer, and each answer's cell is that answer's alone. */
  lemma {:induction false} FamiliesAreApart(seam: Seam, a: CrossingId, b: CrossingId, x: Answered, y: Answered)
    requires Identity.CollisionFree(seam.hash)
    ensures a.RecordKey(seam) != b.AnswerKey(seam, x)
    ensures a.RecordKey(seam) == b.RecordKey(seam) ==> a == b.(consumer := a.consumer)
    ensures a.AnswerKey(seam, x) == b.AnswerKey(seam, y) ==> x == y && a == b.(producer := a.producer)
  {
    hide Seam.ChildKeyOf, CrossingId.Material;
    if a.RecordKey(seam) == b.AnswerKey(seam, x) {
      ChildKeysTellApart(seam, a.producer, ESCROW_RECORD_SLOT, a.Material(), b.consumer, x.Slot(), b.Material());
    }
    if a.RecordKey(seam) == b.RecordKey(seam) {
      ChildKeysTellApart(seam, a.producer, ESCROW_RECORD_SLOT, a.Material(), b.producer, ESCROW_RECORD_SLOT,
                         b.Material());
      MaterialsTellApart(a, b);
    }
    if a.AnswerKey(seam, x) == b.AnswerKey(seam, y) {
      ChildKeysTellApart(seam, a.consumer, x.Slot(), a.Material(), b.consumer, y.Slot(), b.Material());
      MaterialsTellApart(a, b);
    }
  }

  // --------------------------------------------------------------- leaves read back

  /** At most one arm reads any leaf, so the order the arms are tried in decides nothing. */
  lemma {:induction false} ArmsAreExclusive(codec: Codec, seam: Seam, key: SubstateKey, value: Bytes)
    requires Identity.CollisionFree(seam.hash)
    ensures ReadRecord(codec, seam, key, value).None? || ReadAnswer(codec, seam, key, value).None?
    ensures Read(codec, seam, key, value) ==
            var answer := ReadAnswer(codec, seam, key, value);
            if answer.Some? then answer else ReadRecord(codec, seam, key, value)
  {
    hide CrossingId.RecordKey, CrossingId.AnswerKey;
    var record, answer := ReadRecord(codec, seam, key, value), ReadAnswer(codec, seam, key, value);
    if record.Some? && answer.Some? {
      FamiliesAreApart(seam, record.value.id, answer.value.id, answer.value.answer.answered, Taken);
    }
  }

  /** A leaf reads as a record exactly where it is one: that cell's own bytes, at that
      crossing's own record key. */
  lemma {:induction false} RecordsReadBack(codec: Codec, seam: Seam, key: SubstateKey, value: Bytes, cell: CrossingCell)
    requires Canonical(codec) && Identity.CollisionFree(seam.hash)
    ensures (exists id, kind :: Read(codec, seam, key, value) == Some(Record(id, kind, cell))) <==>
            value == codec.cell(cell) && key == CrossingId.OfRecord(key.owner, cell).RecordKey(seam)
    ensures value == codec.cell(cell) && key == CrossingId.OfRecord(key.owner, cell).RecordKey(seam) ==>
              Read(codec, seam, key, value) ==
                  Some(Record(CrossingId.OfRecord(key.owner, cell), cell.terms.Kind(), cell))
  {
    hide CrossingId.RecordKey, CrossingId.AnswerKey;
    ArmsAreExclusive(codec, seam, key, value);
    var id := CrossingId.OfRecord(key.owner, cell);
    if value == codec.cell(cell) && key == id.RecordKey(seam) {
      assert codec.readCell(value) == Some(cell);
      assert Read(codec, seam, key, value) == Some(Record(id, cell.terms.Kind(), cell));
    }
  }

  /** A leaf reads as an answer exactly where it is one. */
  lemma {:induction false} AnswersReadBack(
      codec: Codec, seam: Seam, key: SubstateKey, value: Bytes, answer: CrossingAnswer)
    requires Canonical(codec) && Identity.CollisionFree(seam.hash)
    ensures (exists id :: Read(codec, seam, key, value) == Some(Response(id, answer))) <==>
            value == codec.answer(answer)
                && key == CrossingId.OfAnswer(key.owner, answer).AnswerKey(seam, answer.answered)
    ensures value == codec.answer(answer)
            && key == CrossingId.OfAnswer(key.owner, answer).AnswerKey(seam, answer.answered) ==>
              Read(codec, seam, key, value) == Some(Response(CrossingId.OfAnswer(key.owner, answer), answer))
  {
    hide CrossingId.RecordKey, CrossingId.AnswerKey;
    ArmsAreExclusive(codec, seam, key, value);
    var id := CrossingId.OfAnswer(key.owner, answer);
    if value == codec.answer(answer) && key == id.AnswerKey(seam, answer.answered) {
      assert codec.readAnswer(value) == Some(answer);
      assert Read(codec, seam, key, value) == Some(Response(id, answer));
    }
  }

  /** What a crossing writes is read back as that crossing, with the kind its terms carry or the
      answer it gave. */
  lemma {:induction false} WrittenIsRead(codec: Codec, seam: Seam, id: CrossingId, tx: Bytes, resource: ResourceAddr,
                                         amount: Word128, validityEnd: Word64, terms: Terms, answered: Answered)
    requires Canonical(codec) && Identity.CollisionFree(seam.hash)
    ensures var cell := id.Cell(tx, resource, amount, validityEnd, terms);
            && Read(codec, seam, id.RecordKey(seam), codec.cell(cell)) ==
               Some(Record(id, if terms.Owed? then OwedKind else EscrowedKind, cell))
            && cell.resource == resource && cell.amount == amount && cell.terms == terms
            && cell.tx == tx && cell.validityEnd == validityEnd
    ensures forall value :: id.AnsweredBy(codec, tx, validityEnd, answered, value) ==>
              var read := Read(codec, seam, id.AnswerKey(seam, answered), value);
              && read.Some? && read.value.Response? && read.value.id == id
              && var answer := read.value.answer;
              && answer.SeenNow() == id.Answer(tx, answered, validityEnd)
              && answer.tx == tx && answer.answered == answered && answer.validityEnd == validityEnd
              && (answer.answered.Taken? ==> answer.seen)
  {
    var cell := id.Cell(tx, resource, amount, validityEnd, terms);
    RecordsReadBack(codec, seam, id.RecordKey(seam), codec.cell(cell), cell);
    var key := id.AnswerKey(seam, answered);
    var seen := id.Answer(tx, answered, validityEnd);
    AnswersReadBack(codec, seam, key, codec.answer(seen), seen);
    if answered.Never? {
      var unseen := id.UnseenNever(tx, validityEnd);
      AnswersReadBack(codec, seam, key, codec.answer(unseen), unseen);
    }
  }

  // ------------------------------------------------------------------ whose answer

  lemma {:induction false} AnswerOfValue(
      codec: Codec, id: CrossingId, tx: Bytes, validityEnd: Word64, answered: Answered, value: Bytes)
    returns (answer: CrossingAnswer)
    requires Canonical(codec) && id.AnsweredBy(codec, tx, validityEnd, answered, value)
    ensures codec.readAnswer(value) == Some(answer) && answer.SeenNow() == id.Answer(tx, answered, validityEnd)
    ensures answered.Taken? ==> answer.seen
  {
    var seen, unseen := id.Answer(tx, answered, validityEnd), id.UnseenNever(tx, validityEnd);
    answer := if value == codec.answer(seen) then seen else unseen;
    assert codec.readAnswer(value) == Some(answer);
  }

  /** A value read at an answer key is one crossing's answer, for one transaction and validity
      end, in one role, at most. */
  lemma {:induction false} AnswersAreOnesOwn(codec: Codec, seam: Seam, value: Bytes,
                                             a: CrossingId, tx: Bytes, end: Word64, x: Answered,
                                             b: CrossingId, uy: Bytes, fin: Word64, y: Answered)
    requires Canonical(codec) && a.AnswerKey(seam, x) == b.AnswerKey(seam, y)
    requires a.AnsweredBy(codec, tx, end, x, value) && b.AnsweredBy(codec, uy, fin, y, value)
    ensures a == b && tx == uy && end == fin && x == y
  {
    var mine := AnswerOfValue(codec, a, tx, end, x, value);
    var theirs := AnswerOfValue(codec, b, uy, fin, y, value);
    assert mine == theirs;
  }

  /** Coming to be seen keeps whose answer a cell is. */
  lemma {:induction false} BeingSeenKeepsTheAnswer(codec: Codec, id: CrossingId, tx: Bytes, validityEnd: Word64,
                                                   answered: Answered, value: Bytes)
    requires Canonical(codec) && id.AnsweredBy(codec, tx, validityEnd, answered, value)
    ensures codec.readAnswer(value).Some?
    ensures id.AnsweredBy(codec, tx, validityEnd, answered, codec.answer(codec.readAnswer(value).value.SeenNow()))
  {
    var answer := AnswerOfValue(codec, id, tx, validityEnd, answered, value);
  }

  /** A leaf read as an answer is somebody's, except a take that claims to be unseen, which
      nobody writes. */
  lemma {:induction false} ReadAnswersAreSomebodys(codec: Codec, seam: Seam, key: SubstateKey, value: Bytes)
    requires Canonical(codec)
    requires Read(codec, seam, key, value).Some? && Read(codec, seam, key, value).value.Response?
    ensures var leaf := Read(codec, seam, key, value).value;
            leaf.id.AnsweredBy(codec, leaf.answer.tx, leaf.answer.validityEnd, leaf.answer.answered, value)
            <==> leaf.answer.seen || leaf.answer.answered.Never?
  {
    var leaf := Read(codec, seam, key, value).value;
    var id, answer := leaf.id, leaf.answer;
    assert codec.answer(answer) == value;
    if id.AnsweredBy(codec, answer.tx, answer.validityEnd, answer.answered, value) {
      var held := AnswerOfValue(codec, id, answer.tx, answer.validityEnd, answer.answered, value);
    }
  }

  // ------------------------------------------------------------------- owed crossings

  /** The cell an owed crossing credits is the cell a deposit at its consumer declares. */
  lemma {:induction false} OwedCreditIsTheDeposit(id: CrossingId, sig: Shapes.Signature, env: Evaluation.Inputs)
    requires Shapes.IsVaultDeposit(sig) && env.self == id.consumer
    requires |env.args| > 0 && env.args[0].VBucket?
    ensures var declared := Clauses.Declares(sig.effects, Targets.PartsOf(env)).result;
            && declared.Ok? && |declared.value.draft.ordered| == 1
            && declared.value.draft.ordered[0].effect ==
                Effect(Point(id.OwedCredit(env.seam, env.args[0].resource)), Delta(In))
  {
    hide Targets.PartsOf, Clauses.Declares;
    Shapes.DepositsCreditTheVault(sig, env);
  }
}
