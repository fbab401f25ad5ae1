/** A module's metadata section: its framing written, walked and read back. */
module Artifact {
  import opened Vocabulary

  datatype ArtifactError =
    | NotWasm | SectionOverrun | NameOverrun | BadLength | DuplicateSection | AlreadyAttached | Unencodable

  type Outcome<+T> = Result<T, ArtifactError>

  const CUSTOM_SECTION_ID: Byte := 0
  const WASM_MAGIC: Bytes := [0x00, 0x61, 0x73, 0x6D]
  const PREAMBLE_LEN: nat := 8

  /** "hyperscale:effect-metadata". */
  const METADATA_SECTION: Bytes := [
    0x68, 0x79, 0x70, 0x65, 0x72, 0x73, 0x63, 0x61, 0x6C, 0x65, 0x3A, 0x65, 0x66, 0x66, 0x65, 0x63, 0x74, 0x2D,
    0x6D, 0x65, 0x74, 0x61, 0x64, 0x61, 0x74, 0x61]

  // ------------------------------------------------------------------ lengths

  /** A length in seven-bit groups, low group first, every byte but the last marked. */
  function Uleb(value: nat): (b: Bytes)
    ensures b != []
  {
    if value < 0x80 then [value] else [value % 0x80 + 0x80] + Uleb(value / 0x80)
  }

  method WriteUleb128(length: nat, out: Bytes) returns (written: Bytes)
    ensures written == out + Uleb(length)
  {
    var value := length;
    written := out;
    while value >= 0x80
      invariant written + Uleb(value) == out + Uleb(length)
    {
      assert written + Uleb(value) == written + [value % 0x80 + 0x80] + Uleb(value / 0x80);
      written := written + [value % 0x80 + 0x80];
      value := value / 0x80;
    }
    written := written + [value];
  }

  /** A group's worth at its place in the number. */
  function Scaled(group: nat, shift: nat): nat { group * Pow2(shift) }

  /** A length read, and where reading it left off. */
  datatype Length = Length(value: nat, next: nat)

  function ReadAt(bytes: Bytes, pos: nat, shift: nat, value: nat): (r: Outcome<Length>)
    requires shift < 32
    ensures r.Ok? ==> pos < r.value.next <= |bytes|
    decreases 32 - shift
  {
    if pos >= |bytes| then Err(BadLength)
    else
      var byte := bytes[pos];
      var sum := value + Scaled(byte % 0x80, shift);
      if byte < 0x80 then if sum > MAX_WORD32 then Err(BadLength) else Ok(Length(sum, pos + 1))
      else if shift + 7 >= 32 then Err(BadLength)
      else ReadAt(bytes, pos + 1, shift + 7, sum)
  }

  function ReadUleb(bytes: Bytes, pos: nat): Outcome<Length> { ReadAt(bytes, pos, 0, 0) }

  method ReadUleb128(bytes: Bytes, pos: nat) returns (r: Outcome<Length>)
    ensures r == ReadUleb(bytes, pos)
  {
    hide Scaled;
    var value: nat, shift: nat, at: nat := 0, 0, pos;
    while true
      invariant shift < 32
      invariant ReadUleb(bytes, pos) == ReadAt(bytes, at, shift, value)
      decreases 32 - shift
    {
      if at >= |bytes| {
        return Err(BadLength);
      }
      var byte := bytes[at];
      at := at + 1;
      value := value + Scaled(byte % 0x80, shift);
      if byte < 0x80 {
        break;
      }
      shift := shift + 7;
      if shift >= 32 {
        return Err(BadLength);
      }
    }
    if value > MAX_WORD32 {
      return Err(BadLength);
    }
    r := Ok(Length(value, at));
  }

  // -------------------------------------------------------- a length written is read

  lemma {:induction false} Pow2Sevenfold(shift: nat)
    ensures Pow2(shift + 7) == 0x80 * Pow2(shift)
  {
    assert Pow2(shift + 7) == 2 * Pow2(shift + 6) == 4 * Pow2(shift + 5) == 8 * Pow2(shift + 4);
    assert Pow2(shift + 4) == 2 * Pow2(shift + 3) == 4 * Pow2(shift + 2) == 8 * Pow2(shift + 1);
  }

  lemma {:induction false} GroupsAddUp(length: nat, shift: nat)
    ensures Scaled(length % 0x80, shift) + Scaled(length / 0x80, shift + 7) == Scaled(length, shift)
  {
    var low, high, scale := length % 0x80, length / 0x80, Pow2(shift);
    Pow2Sevenfold(shift);
    assert length == low + 0x80 * high;
    assert (low + 0x80 * high) * scale == low * scale + high * (0x80 * scale);
  }

  /** Reading what was written, at any offset and part way through any number. */
  lemma {:induction false} ReadsWhatWasWritten(before: Bytes, length: nat, after: Bytes, shift: nat, value: nat)
    requires shift < 32
    ensures ReadAt(before + Uleb(length) + after, |before|, shift, value) ==
            var sum := value + Scaled(length, shift);
            if shift + 7 * (|Uleb(length)| - 1) >= 32 || sum > MAX_WORD32 then Err(BadLength)
            else Ok(Length(sum, |before| + |Uleb(length)|))
    decreases length
  {
    hide Scaled;
    var bytes := before + Uleb(length) + after;
    assert bytes[|before|] == Uleb(length)[0];
    if length >= 0x80 {
      var low, high := length % 0x80, length / 0x80;
      var marked := before + [low + 0x80];
      assert bytes == marked + Uleb(high) + after;
      GroupsAddUp(length, shift);
      if shift + 7 < 32 {
        ReadsWhatWasWritten(marked, high, after, shift + 7, value + Scaled(low, shift));
        assert ReadAt(bytes, |before|, shift, value) == ReadAt(bytes, |marked|, shift + 7, value + Scaled(low, shift));
      }
    }
  }

  /** A length within the format's width takes at most five bytes. */
  lemma {:induction false} LengthsAreShort(length: nat)
    requires length <= MAX_WORD32
    ensures |Uleb(length)| <= 5
  {
    var a := length / 0x80;
    var b := a / 0x80;
    var c := b / 0x80;
    var d := c / 0x80;
    assert a < 0x200_0000 && b < 0x4_0000 && c < 0x800 && d < 0x10;
    assert |Uleb(d)| == 1;
    assert |Uleb(c)| <= 2;
    assert |Uleb(b)| <= 3;
    assert |Uleb(a)| <= 4;
  }

  /** A length is read back at any offset exactly where it fits the format's width, in at most
      five bytes, and is refused otherwise. */
  lemma {:induction false} LengthsRoundTrip(before: Bytes, length: nat, after: Bytes)
    ensures ReadUleb(before + Uleb(length) + after, |before|) ==
            if length <= MAX_WORD32 then Ok(Length(length, |before| + |Uleb(length)|)) else Err(BadLength)
  {
    ReadsWhatWasWritten(before, length, after, 0, 0);
    assert Scaled(length, 0) == length;
    if length <= MAX_WORD32 {
      LengthsAreShort(length);
    }
  }

  /** A length read from bytes is the same read with more bytes behind them. */
  lemma {:induction false} ReadingIgnoresWhatFollows(bytes: Bytes, after: Bytes, pos: nat, shift: nat, value: nat)
    requires shift < 32 && ReadAt(bytes, pos, shift, value).Ok?
    ensures ReadAt(bytes + after, pos, shift, value) == ReadAt(bytes, pos, shift, value)
    decreases 32 - shift
  {
    assert (bytes + after)[pos] == bytes[pos];
    if bytes[pos] >= 0x80 {
      ReadingIgnoresWhatFollows(bytes, after, pos + 1, shift + 7, value + Scaled(bytes[pos] % 0x80, shift));
    }
  }

  lemma {:induction false} LengthsStay(bytes: Bytes, after: Bytes, pos: nat)
    requires ReadUleb(bytes, pos).Ok?
    ensures ReadUleb(bytes + after, pos) == ReadUleb(bytes, pos)
    ensures pos < ReadUleb(bytes, pos).value.next <= |bytes|
  {
    ReadingIgnoresWhatFollows(bytes, after, pos, 0, 0);
  }

  // ------------------------------------------------------------------- the walk

  /** The name a custom section opens with, and where its payload starts. */
  datatype Named = Named(name: Bytes, payload: nat)

  function ReadName(section: Bytes, pos: nat): (r: Outcome<Named>)
    ensures r.Ok? ==> r.value.payload <= |section|
  {
    var length :- ReadUleb(section, pos);
    if length.next + length.value > |section| then Err(NameOverrun)
    else Ok(Named(section[length.next..length.next + length.value], length.next + length.value))
  }

  /** One section: what is found once it is walked, and where the next one starts. */
  datatype Walked = Walked(found: Option<Bytes>, next: nat)

  function WalkSection(artifact: Bytes, pos: nat, found: Option<Bytes>): (r: Outcome<Walked>)
    requires pos < |artifact|
    ensures r.Ok? ==> pos < r.value.next <= |artifact|
  {
    var size :- ReadUleb(artifact, pos + 1);
    var end := size.next + size.value;
    if end > |artifact| then Err(SectionOverrun)
    else if artifact[pos] != CUSTOM_SECTION_ID then Ok(Walked(found, end))
    else
      var named :- ReadName(artifact[..end], size.next);
      if named.name != METADATA_SECTION then Ok(Walked(found, end))
      else if found.Some? then Err(DuplicateSection)
      else Ok(Walked(Some(artifact[named.payload..end]), end))
  }

  function Walk(artifact: Bytes, pos: nat, found: Option<Bytes>): Outcome<Option<Bytes>>
    requires pos <= |artifact|
    decreases |artifact| - pos
  {
    if pos == |artifact| then Ok(found)
    else
      var walked :- WalkSection(artifact, pos, found);
      Walk(artifact, walked.next, walked.found)
  }

  function Section(artifact: Bytes): Outcome<Option<Bytes>> {
    if |artifact| < PREAMBLE_LEN || artifact[..|WASM_MAGIC|] != WASM_MAGIC then Err(NotWasm)
    else Walk(artifact, PREAMBLE_LEN, None)
  }

  /** The walk over an artifact's sections, every step checked against the bytes that remain. */
  method MetadataSection(artifact: Bytes) returns (r: Outcome<Option<Bytes>>)
    ensures r == Section(artifact)
  {
    hide ReadUleb, METADATA_SECTION;
    if |artifact| < PREAMBLE_LEN || artifact[..|WASM_MAGIC|] != WASM_MAGIC {
      return Err(NotWasm);
    }
    var found: Option<Bytes> := None;
    var pos := PREAMBLE_LEN;
    while pos < |artifact|
      invariant pos <= |artifact|
      invariant Section(artifact) == Walk(artifact, pos, found)
    {
      var id := artifact[pos];
      var size :- ReadUleb128(artifact, pos + 1);
      var end := size.next + size.value;
      if end > |artifact| {
        return Err(SectionOverrun);
      }
      if id == CUSTOM_SECTION_ID {
        var section := artifact[..end];
        var name :- ReadUleb128(section, size.next);
        var nameEnd := name.next + name.value;
        if nameEnd > end {
          return Err(NameOverrun);
        }
        assert artifact[name.next..nameEnd] == section[name.next..nameEnd];
        if artifact[name.next..nameEnd] == METADATA_SECTION {
          if found.Some? {
            return Err(DuplicateSection);
          }
          found := Some(artifact[nameEnd..end]);
        }
      }
      pos := end;
    }
    r := Ok(found);
  }

  // ------------------------------------------------------------------- attaching

  function Content(payload: Bytes): Bytes { Uleb(|METADATA_SECTION|) + METADATA_SECTION + payload }

  function Framed(payload: Bytes): Bytes { [CUSTOM_SECTION_ID] + Uleb(|Content(payload)|) + Content(payload) }

  /** Attach a metadata payload, as its codec encoded it, to a module. */
  method AttachMetadata(artifact: Bytes, encoded: Outcome<Bytes>) returns (r: Outcome<Bytes>)
    ensures r == if Section(artifact).Err? then Err(Section(artifact).error)
                 else if Section(artifact).value.Some? then Err(AlreadyAttached)
                 else if encoded.Err? then Err(encoded.error)
                 else Ok(artifact + Framed(encoded.value))
  {
    hide Uleb, Section, METADATA_SECTION;
    var present :- MetadataSection(artifact);
    if present.Some? {
      return Err(AlreadyAttached);
    }
    var payload :- encoded;
    var content := WriteUleb128(|METADATA_SECTION|, []);
    content := content + METADATA_SECTION;
    content := content + payload;
    assert content == Content(payload);
    var out := artifact;
    out := out + [CUSTOM_SECTION_ID];
    out := WriteUleb128(|content|, out);
    out := out + content;
    assert out == artifact + Framed(payload);
    r := Ok(out);
  }

  // ------------------------------------------------------- what is attached is found

  /** A section walked in an artifact is walked alike in any longer one. */
  lemma {:induction false} SectionsStay(artifact: Bytes, after: Bytes, pos: nat, found: Option<Bytes>)
    requires pos < |artifact| && WalkSection(artifact, pos, found).Ok?
    ensures WalkSection(artifact + after, pos, found) == WalkSection(artifact, pos, found)
  {
    hide ReadUleb;
    var longer := artifact + after;
    LengthsStay(artifact, after, pos + 1);
    var size := ReadUleb(artifact, pos + 1).value;
    var end := size.next + size.value;
    assert longer[pos] == artifact[pos] && longer[..end] == artifact[..end];
    if artifact[pos] == CUSTOM_SECTION_ID {
      var start := ReadName(artifact[..end], size.next).value.payload;
      assert longer[start..end] == artifact[start..end];
    }
  }

  /** A walk that succeeds goes on past the end of what it walked. */
  lemma {:induction false} WalksGoOn(artifact: Bytes, after: Bytes, pos: nat, found: Option<Bytes>)
    requires pos <= |artifact| && Walk(artifact, pos, found).Ok?
    ensures Walk(artifact + after, pos, found) == Walk(artifact + after, |artifact|, Walk(artifact, pos, found).value)
    decreases |artifact| - pos
  {
    if pos < |artifact| {
      SectionsStay(artifact, after, pos, found);
      var walked := WalkSection(artifact, pos, found).value;
      WalksGoOn(artifact, after, walked.next, walked.found);
    }
  }

  /** The framed section is read as the one section it is, wherever it is appended: refused where
      its content passes the format's width, or where a metadata section came before it. */
  lemma {:induction false} FramesAreWalked(artifact: Bytes, payload: Bytes, found: Option<Bytes>)
    ensures Walk(artifact + Framed(payload), |artifact|, found) ==
            if |Content(payload)| > MAX_WORD32 then Err(BadLength)
            else if found.Some? then Err(DuplicateSection)
            else Ok(Some(payload))
  {
    hide Uleb, ReadUleb, ReadName;
    var content := Content(payload);
    var out := artifact + Framed(payload);
    var head := artifact + [CUSTOM_SECTION_ID];
    assert out == head + Uleb(|content|) + content;
    LengthsRoundTrip(head, |content|, content);
    if |content| <= MAX_WORD32 {
      var start := |head| + |Uleb(|content|)|;
      assert out[..|out|] == out;
      NamesAreRead(head + Uleb(|content|), payload);
      assert out == (head + Uleb(|content|)) + content;
    }
  }

  lemma {:induction false} NamesAreRead(before: Bytes, payload: Bytes)
    ensures var section := before + Content(payload);
            && ReadName(section, |before|).Ok?
            && ReadName(section, |before|).value.name == METADATA_SECTION
            && section[ReadName(section, |before|).value.payload..] == payload
  {
    var section := before + Content(payload);
    var length := Uleb(|METADATA_SECTION|);
    assert section == before + length + (METADATA_SECTION + payload);
    LengthsRoundTrip(before, |METADATA_SECTION|, METADATA_SECTION + payload);
    var start := |before| + |length|;
    assert section[start..start + |METADATA_SECTION|] == METADATA_SECTION;
    assert section[start + |METADATA_SECTION|..] == payload;
  }

  /** Attaching keeps the artifact as an unchanged prefix, the walk finds exactly the payload
      attached, and a second section is refused by the walk and a second attach by the door:
      all of it exactly where the section's content fits the format's width. */
  lemma {:induction false} AttachedIsFound(artifact: Bytes, payload: Bytes, second: Bytes)
    requires Section(artifact) == Ok(None)
    ensures var attached := artifact + Framed(payload);
            && artifact <= attached
            && (Section(attached) == Ok(Some(payload)) <==> |Content(payload)| <= MAX_WORD32)
            && (Section(attached) == Err(BadLength) <==> |Content(payload)| > MAX_WORD32)
            && (|Content(payload)| <= MAX_WORD32 && |Content(second)| <= MAX_WORD32 ==>
                  Section(attached + Framed(second)) == Err(DuplicateSection))
  {
    var attached := artifact + Framed(payload);
    assert attached[..|WASM_MAGIC|] == artifact[..|WASM_MAGIC|];
    WalksGoOn(artifact, Framed(payload), PREAMBLE_LEN, None);
    FramesAreWalked(artifact, payload, None);
    if |Content(payload)| <= MAX_WORD32 {
      assert (attached + Framed(second))[..|WASM_MAGIC|] == attached[..|WASM_MAGIC|];
      WalksGoOn(attached, Framed(second), PREAMBLE_LEN, None);
      FramesAreWalked(attached, second, Some(payload));
    }
  }

  // ---------------------------------------------------------------- whole modules

  /** A section of a module: a standard one, or a custom one under its name. */
  datatype Chunk = Standard(id: Byte, content: Bytes) | Custom(name: Bytes, payload: Bytes) {
    function Id(): Byte { if Standard? then id else CUSTOM_SECTION_ID }

    function Body(): Bytes { if Standard? then content else Uleb(|name|) + name + payload }

    function Written(): Bytes { [Id()] + Uleb(|Body()|) + Body() }

    predicate WellFramed() { |Body()| <= MAX_WORD32 && (Standard? ==> id != CUSTOM_SECTION_ID) }

    predicate IsMetadata() { Custom? && name == METADATA_SECTION }
  }

  function WrittenAll(chunks: seq<Chunk>): Bytes {
    if chunks == [] then [] else chunks[0].Written() + WrittenAll(chunks[1..])
  }

  /** The payloads of the metadata sections, in order. */
  function Payloads(chunks: seq<Chunk>): seq<Bytes> {
    if chunks == [] then []
    else (if chunks[0].IsMetadata() then [chunks[0].payload] else []) + Payloads(chunks[1..])
  }

  /** What a reader is owed of so many payloads: the only one, none, or a refusal. */
  function Owed(payloads: seq<Bytes>): Outcome<Option<Bytes>> {
    if |payloads| == 0 then Ok(None) else if |payloads| == 1 then Ok(Some(payloads[0])) else Err(DuplicateSection)
  }

  lemma {:induction false} ChunkNamesAreRead(before: Bytes, name: Bytes, payload: Bytes)
    requires |Uleb(|name|) + name + payload| <= MAX_WORD32
    ensures var section := before + (Uleb(|name|) + name + payload);
            && ReadName(section, |before|) == Ok(Named(name, |section| - |payload|))
            && section[|section| - |payload|..] == payload
  {
    hide Uleb, ReadUleb;
    var section := before + (Uleb(|name|) + name + payload);
    assert section == before + Uleb(|name|) + (name + payload);
    LengthsRoundTrip(before, |name|, name + payload);
    var start := |before| + |Uleb(|name|)|;
    assert section[start..start + |name|] == name;
  }

  lemma {:induction false} ChunksAreWalked(before: Bytes, c: Chunk, after: Bytes, found: Option<Bytes>)
    requires c.WellFramed()
    ensures WalkSection(before + c.Written() + after, |before|, found) ==
            if c.IsMetadata() && found.Some? then Err(DuplicateSection)
            else Ok(Walked(if c.IsMetadata() then Some(c.payload) else found, |before + c.Written()|))
  {
    hide Uleb, ReadUleb, ReadName;
    var artifact, body := before + c.Written() + after, c.Body();
    var head := before + [c.Id()];
    var led := head + Uleb(|body|);
    assert artifact == head + Uleb(|body|) + (body + after);
    LengthsRoundTrip(head, |body|, body + after);
    assert |led| + |body| == |before + c.Written()|;
    assert artifact[|before|] == c.Id();
    if c.Custom? {
      assert artifact[..|led| + |body|] == led + body;
      ChunkNamesAreRead(led, c.name, c.payload);
      assert artifact[|led| + |body| - |c.payload|..|led| + |body|] == c.payload;
    }
  }

  lemma {:induction false} AllChunksAreWalked(before: Bytes, chunks: seq<Chunk>, found: seq<Bytes>)
    requires (forall c <- chunks :: c.WellFramed()) && |found| <= 1
    ensures Walk(before + WrittenAll(chunks), |before|, if found == [] then None else Some(found[0])) ==
            Owed(found + Payloads(chunks))
    decreases |chunks|
  {
    hide Walk, WalkSection, Chunk.Written;
    var so := if found == [] then None else Some(found[0]);
    if chunks == [] {
      assert before + WrittenAll(chunks) == before && found + Payloads(chunks) == found;
      WalkEnds(before, so);
    } else {
      var c, rest := chunks[0], chunks[1..];
      var next, more := before + c.Written(), if c.IsMetadata() then [c.payload] else [];
      var artifact := next + WrittenAll(rest);
      WrittenIsSomething(c);
      assert before + WrittenAll(chunks) == artifact;
      assert found + Payloads(chunks) == (found + more) + Payloads(rest);
      ChunksAreWalked(before, c, WrittenAll(rest), so);
      WalkSteps(artifact, |before|, so);
      if |found + more| <= 1 {
        AllChunksAreWalked(next, rest, found + more);
      }
    }
  }

  lemma {:induction false} WrittenIsSomething(c: Chunk)
    ensures c.Written() != []
  {}

  lemma {:induction false} WalkEnds(artifact: Bytes, found: Option<Bytes>)
    ensures Walk(artifact, |artifact|, found) == Ok(found)
  {}

  lemma {:induction false} WalkSteps(artifact: Bytes, pos: nat, found: Option<Bytes>)
    requires pos < |artifact|
    ensures var walked := WalkSection(artifact, pos, found);
            Walk(artifact, pos, found) ==
            if walked.Err? then Err(walked.error) else Walk(artifact, walked.value.next, walked.value.found)
  {
    hide WalkSection;
  }

  /** A module of well-framed sections answers its one metadata payload, nothing where it has none,
      and a refusal where it has more, whatever the other sections are and wherever they sit. */
  lemma {:induction false} ModulesAnswerTheirMetadata(preamble: Bytes, chunks: seq<Chunk>)
    requires |preamble| == 8 && preamble[..4] == [0x00, 0x61, 0x73, 0x6D]
    requires forall c <- chunks :: c.WellFramed()
    ensures Section(preamble + WrittenAll(chunks)) == Owed(Payloads(chunks))
  {
    hide Walk;
    assert (preamble + WrittenAll(chunks))[..4] == preamble[..4];
    AllChunksAreWalked(preamble, chunks, []);
    assert [] + Payloads(chunks) == Payloads(chunks);
  }
}
