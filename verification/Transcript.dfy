/** Canonical Transcript V1 of gen/rust/src/canonical_transcript.rs: the meaning of `encode` and `decode`. */
module Transcript {
  import opened Wrappers
  import opened Bytes

  const MAGIC: Octets := [0x50, 0x52, 0x44, 0x54]
  const VERSION: U16 := 1
  const HEADER_LENGTH := 10
  const FIELD_HEADER_LENGTH := 6
  const MAX_FIELDS := 16
  const MAX_FIELD_LENGTH := 1024
  const MAX_TRANSCRIPT_LENGTH := 4096

  datatype Purpose = PairingSas | SessionOffer | SessionAnswer | SessionReconnect

  datatype Field = Field(tag: U16, value: Octets)

  datatype CanonicalTranscript = CanonicalTranscript(purpose: Purpose, fields: seq<Field>)

  datatype TranscriptError =
    | InvalidMagic | UnknownVersion | UnknownPurpose | TooManyFields | DuplicateField | FieldOrder
    | FieldTooLong | TranscriptTooLong | UnknownField | MissingField | InvalidFieldLength | Truncated | TrailingBytes

  function PurposeNumber(purpose: Purpose): U16 {
    match purpose
    case PairingSas => 1
    case SessionOffer => 2
    case SessionAnswer => 3
    case SessionReconnect => 4
  }

  function PurposeOf(number: U16): (r: Option<Purpose>)
    ensures forall p :: r == Some(p) <==> number == PurposeNumber(p)
  {
    if number == 1 then Some(PairingSas)
    else if number == 2 then Some(SessionOffer)
    else if number == 3 then Some(SessionAnswer)
    else if number == 4 then Some(SessionReconnect)
    else None
  }

  function RequiredTags(purpose: Purpose): seq<U16> {
    match purpose
    case PairingSas => [1, 2, 3, 4, 5, 6, 7]
    case SessionOffer => [1, 2, 8, 9, 10, 11, 12, 13, 14]
    case SessionAnswer => [1, 2, 8, 9, 10, 11, 12, 13, 14, 15, 16]
    case SessionReconnect => [1, 2, 8, 9, 10, 11, 12, 13, 14, 15, 16, 17]
  }

  function FieldLength(tag: U16): nat {
    if tag == 3 || tag == 8 then 16
    else if tag == 10 || tag == 11 then 8
    else if tag == 12 || tag == 17 then 4
    else 32
  }

  // ---- Validation ----

  /** The per-field checks, in the order they are made. */
  function CheckField(required: seq<U16>, field: Field, previous: Option<U16>): Option<TranscriptError> {
    match CheckOrder(field.tag, previous)
    case Some(error) => Some(error)
    case None =>
      if |field.value| > MAX_FIELD_LENGTH then Some(FieldTooLong)
      else if field.tag !in required then Some(UnknownField)
      else if |field.value| != FieldLength(field.tag) then Some(InvalidFieldLength)
      else None
  }

  function CheckOrder(tag: U16, previous: Option<U16>): Option<TranscriptError> {
    if previous == Some(tag) then Some(DuplicateField)
    else if previous.Some? && tag < previous.value then Some(FieldOrder)
    else None
  }

  function CheckFields(required: seq<U16>, fields: seq<Field>, previous: Option<U16>): Option<TranscriptError>
    decreases |fields|
  {
    if fields == [] then None
    else
      match CheckField(required, fields[0], previous)
      case Some(error) => Some(error)
      case None => CheckFields(required, fields[1..], Some(fields[0].tag))
  }

  function ValidateFields(purpose: Purpose, fields: seq<Field>): Option<TranscriptError> {
    var required := RequiredTags(purpose);
    if |fields| > MAX_FIELDS then Some(TooManyFields)
    else
      match CheckFields(required, fields, None)
      case Some(error) => Some(error)
      case None =>
        if |fields| < |required| then Some(MissingField)
        else if |fields| > |required| then Some(UnknownField)
        else if exists i | 0 <= i < |fields| :: fields[i].tag != required[i] then Some(MissingField)
        else None
  }

  /** What validity comes to: exactly the required tags in order, each with its fixed length. */
  predicate WellFormed(t: CanonicalTranscript) {
    var required := RequiredTags(t.purpose);
    && |t.fields| == |required|
    && forall i | 0 <= i < |required| :: t.fields[i].tag == required[i] && |t.fields[i].value| == FieldLength(required[i])
  }

  lemma {:induction false} CheckedFields(required: seq<U16>, fields: seq<Field>, previous: Option<U16>)
    requires CheckFields(required, fields, previous).None?
    ensures forall i | 0 <= i < |fields| ::
              && fields[i].tag in required && |fields[i].value| == FieldLength(fields[i].tag)
              && (previous.Some? ==> previous.value < fields[i].tag)
    ensures forall i, j | 0 <= i < j < |fields| :: fields[i].tag < fields[j].tag
    decreases |fields|
  {
    if fields != [] {
      var tail := fields[1..];
      CheckedFields(required, tail, Some(fields[0].tag));
      assert forall i | 1 <= i < |fields| :: fields[i] == tail[i - 1];
    }
  }

  lemma {:induction false} CheckAccepts(required: seq<U16>, fields: seq<Field>, previous: Option<U16>)
    requires forall i | 0 <= i < |fields| ::
               && fields[i].tag in required && |fields[i].value| == FieldLength(fields[i].tag)
               && (previous.Some? ==> previous.value < fields[i].tag)
    requires forall i, j | 0 <= i < j < |fields| :: fields[i].tag < fields[j].tag
    ensures CheckFields(required, fields, previous).None?
    decreases |fields|
  {
    if fields != [] {
      CheckAccepts(required, fields[1..], Some(fields[0].tag));
    }
  }

  lemma RequiredTagsIncrease(purpose: Purpose)
    ensures var required := RequiredTags(purpose);
            && |required| <= 12
            && forall i, j | 0 <= i < j < |required| :: required[i] < required[j]
  {
  }

  lemma ValidIffWellFormed(t: CanonicalTranscript)
    ensures ValidateFields(t.purpose, t.fields).None? <==> WellFormed(t)
  {
    RequiredTagsIncrease(t.purpose);
    if WellFormed(t) {
      CheckAccepts(RequiredTags(t.purpose), t.fields, None);
    }
    if ValidateFields(t.purpose, t.fields).None? {
      CheckedFields(RequiredTags(t.purpose), t.fields, None);
    }
  }

  lemma WellFormedBounds(t: CanonicalTranscript)
    requires WellFormed(t)
    ensures |t.fields| <= 12 && forall f <- t.fields :: |f.value| <= 32
  {
    RequiredTagsIncrease(t.purpose);
    assert forall i | 0 <= i < |t.fields| :: |t.fields[i].value| == FieldLength(RequiredTags(t.purpose)[i]);
  }

  // ---- Encoding ----

  function EncodeField(field: Field): Octets
    requires |field.value| <= MAX_FIELD_LENGTH
  {
    BigEndian16(field.tag) + BigEndian32(|field.value|) + field.value
  }

  function EncodeFields(fields: seq<Field>): Octets
    requires forall f <- fields :: |f.value| <= MAX_FIELD_LENGTH
  {
    if fields == [] then [] else EncodeField(fields[0]) + EncodeFields(fields[1..])
  }

  function EncodedLength(fields: seq<Field>): nat {
    if fields == [] then 0 else FIELD_HEADER_LENGTH + |fields[0].value| + EncodedLength(fields[1..])
  }

  function EncodeHeader(purpose: Purpose, count: U16): (s: Octets)
    ensures |s| == HEADER_LENGTH
  {
    MAGIC + BigEndian16(VERSION) + BigEndian16(PurposeNumber(purpose)) + BigEndian16(count)
  }

  function Encode(t: CanonicalTranscript): Result<Octets, TranscriptError> {
    match ValidateFields(t.purpose, t.fields)
    case Some(error) => Err(error)
    case None =>
      ValidIffWellFormed(t);
      WellFormedBounds(t);
      if HEADER_LENGTH + EncodedLength(t.fields) > MAX_TRANSCRIPT_LENGTH then Err(TranscriptTooLong)
      else Ok(EncodeHeader(t.purpose, |t.fields|) + EncodeFields(t.fields))
  }

  lemma {:induction false} EncodedLengthIsLength(fields: seq<Field>)
    requires forall f <- fields :: |f.value| <= MAX_FIELD_LENGTH
    ensures |EncodeFields(fields)| == EncodedLength(fields)
    ensures (forall f <- fields :: |f.value| <= 32) ==> EncodedLength(fields) <= (FIELD_HEADER_LENGTH + 32) * |fields|
  {
    if fields != [] {
      EncodedLengthIsLength(fields[1..]);
      assert fields[0] in fields;
    }
  }

  /** The 4,096-byte limit is never what rejects a transcript. */
  lemma NeverTooLong(t: CanonicalTranscript)
    ensures Encode(t) != Err(TranscriptTooLong)
    ensures Encode(t).Ok? <==> WellFormed(t)
    ensures Encode(t).Ok? ==> |Encode(t).value| == HEADER_LENGTH + EncodedLength(t.fields) <= MAX_TRANSCRIPT_LENGTH
  {
    ValidIffWellFormed(t);
    if WellFormed(t) {
      WellFormedBounds(t);
      EncodedLengthIsLength(t.fields);
    } else {
      NotTooLongError(t);
    }
  }

  lemma {:induction false} CheckNeverTooLong(required: seq<U16>, fields: seq<Field>, previous: Option<U16>)
    ensures CheckFields(required, fields, previous) != Some(TranscriptTooLong)
    decreases |fields|
  {
    if fields != [] {
      CheckNeverTooLong(required, fields[1..], Some(fields[0].tag));
    }
  }

  lemma NotTooLongError(t: CanonicalTranscript)
    ensures ValidateFields(t.purpose, t.fields) != Some(TranscriptTooLong)
  {
    CheckNeverTooLong(RequiredTags(t.purpose), t.fields, None);
  }

  // ---- Decoding ----

  datatype Scanned = Scanned(fields: seq<Field>, rest: Octets)

  /** One field off the front of the bytes. */
  function ScanField(bytes: Octets, previous: Option<U16>): (r: Result<(Field, Octets), TranscriptError>)
    ensures r.Ok? ==> |bytes| == FIELD_HEADER_LENGTH + |r.value.0.value| + |r.value.1|
  {
    if |bytes| < 2 then Err(Truncated)
    else
      var tag := FromBigEndian16(bytes[..2]);
      match CheckOrder(tag, previous)
      case Some(error) => Err(error)
      case None =>
        if |bytes| < 6 then Err(Truncated)
        else
          var length := FromBigEndian32(bytes[2..6]);
          if length > MAX_FIELD_LENGTH then Err(FieldTooLong)
          else
            var end: int := 6 + length as int;
            if |bytes| < end then Err(Truncated)
            else Ok((Field(tag, bytes[6..end]), bytes[end..]))
  }

  function DecodeFields(bytes: Octets, count: nat, previous: Option<U16>): Result<Scanned, TranscriptError>
    decreases count
  {
    if count == 0 then Ok(Scanned([], bytes))
    else
      match ScanField(bytes, previous)
      case Err(error) => Err(error)
      case Ok((field, rest)) => Prepend([field], DecodeFields(rest, count - 1, Some(field.tag)))
  }

  /** The fields read so far put in front of what decoding the rest yields. */
  function Prepend(front: seq<Field>, r: Result<Scanned, TranscriptError>): Result<Scanned, TranscriptError> {
    match r
    case Err(error) => Err(error)
    case Ok(s) => Ok(Scanned(front + s.fields, s.rest))
  }

  function DecodeBody(bytes: Octets, purpose: Purpose, count: nat): Result<CanonicalTranscript, TranscriptError> {
    match DecodeFields(bytes, count, None)
    case Err(error) => Err(error)
    case Ok(s) =>
      if s.rest != [] then Err(TrailingBytes)
      else
        match ValidateFields(purpose, s.fields)
        case Some(error) => Err(error)
        case None => Ok(CanonicalTranscript(purpose, s.fields))
  }

  /** The purpose and field count announced by the ten-byte header. */
  function ScanHeader(bytes: Octets): (r: Result<(Purpose, U16), TranscriptError>)
    ensures r.Ok? ==> HEADER_LENGTH <= |bytes| && r.value.1 <= MAX_FIELDS
  {
    if |bytes| < 4 then Err(Truncated)
    else if bytes[..4] != MAGIC then Err(InvalidMagic)
    else if |bytes| < 6 then Err(Truncated)
    else if FromBigEndian16(bytes[4..6]) != VERSION then Err(UnknownVersion)
    else if |bytes| < 8 then Err(Truncated)
    else
      match PurposeOf(FromBigEndian16(bytes[6..8]))
      case None => Err(UnknownPurpose)
      case Some(purpose) =>
        if |bytes| < 10 then Err(Truncated)
        else if FromBigEndian16(bytes[8..10]) > MAX_FIELDS then Err(TooManyFields)
        else Ok((purpose, FromBigEndian16(bytes[8..10])))
  }

  function Decode(bytes: Octets): Result<CanonicalTranscript, TranscriptError> {
    if |bytes| > MAX_TRANSCRIPT_LENGTH then Err(TranscriptTooLong)
    else
      match ScanHeader(bytes)
      case Err(error) => Err(error)
      case Ok((purpose, count)) => DecodeBody(bytes[HEADER_LENGTH..], purpose, count)
  }

  // ---- The two are inverse ----

  predicate Ordered(fields: seq<Field>, previous: Option<U16>) {
    && (forall i | 0 <= i < |fields| :: |fields[i].value| <= MAX_FIELD_LENGTH && (previous.Some? ==> previous.value < fields[i].tag))
    && (forall i, j | 0 <= i < j < |fields| :: fields[i].tag < fields[j].tag)
  }

  lemma ScanEncodedField(field: Field, rest: Octets, previous: Option<U16>)
    requires |field.value| <= MAX_FIELD_LENGTH && CheckOrder(field.tag, previous).None?
    ensures ScanField(EncodeField(field) + rest, previous) == Ok((field, rest))
  {
    var bytes := EncodeField(field) + rest;
    RoundTrip16(field.tag);
    RoundTrip32(|field.value|);
    assert bytes[..2] == BigEndian16(field.tag);
    assert bytes[2..6] == BigEndian32(|field.value|);
    assert bytes[6..6 + |field.value|] == field.value && bytes[6 + |field.value|..] == rest;
  }

  lemma EncodeScannedField(bytes: Octets, previous: Option<U16>)
    requires ScanField(bytes, previous).Ok?
    ensures var (field, rest) := ScanField(bytes, previous).value;
            |field.value| <= MAX_FIELD_LENGTH && bytes == EncodeField(field) + rest
  {
    Canonical16(bytes[..2]);
    Canonical32(bytes[2..6]);
    var end: int := 6 + FromBigEndian32(bytes[2..6]) as int;
    assert bytes == bytes[..2] + bytes[2..6] + bytes[6..end] + bytes[end..];
  }

  lemma {:induction false} DecodeEncodedFields(fields: seq<Field>, rest: Octets, previous: Option<U16>)
    requires Ordered(fields, previous)
    ensures DecodeFields(EncodeFields(fields) + rest, |fields|, previous) == Ok(Scanned(fields, rest))
    decreases |fields|
  {
    hide ScanField;
    hide EncodeField;
    if fields == [] {
      assert [] + rest == rest;
    } else {
      DecodeEncodedFields(fields[1..], rest, Some(fields[0].tag));
      ScanEncodedField(fields[0], EncodeFields(fields[1..]) + rest, previous);
      assert EncodeFields(fields) + rest == EncodeField(fields[0]) + (EncodeFields(fields[1..]) + rest);
      assert [fields[0]] + fields[1..] == fields;
    }
  }

  lemma {:induction false} EncodeDecodedFields(bytes: Octets, count: nat, previous: Option<U16>)
    requires DecodeFields(bytes, count, previous).Ok?
    ensures var s := DecodeFields(bytes, count, previous).value;
            && |s.fields| == count
            && (forall f <- s.fields :: |f.value| <= MAX_FIELD_LENGTH)
            && bytes == EncodeFields(s.fields) + s.rest
    decreases count
  {
    if count != 0 {
      var (field, rest) := ScanField(bytes, previous).value;
      EncodeScannedField(bytes, previous);
      EncodeDecodedFields(rest, count - 1, Some(field.tag));
      var s := DecodeFields(rest, count - 1, Some(field.tag)).value;
      assert ([field] + s.fields)[1..] == s.fields;
      assert bytes == EncodeField(field) + EncodeFields(s.fields) + s.rest;
    }
  }

  lemma ScanEncodedHeader(purpose: Purpose, count: U16, body: Octets)
    requires count <= MAX_FIELDS
    ensures ScanHeader(EncodeHeader(purpose, count) + body) == Ok((purpose, count))
  {
    var bytes := EncodeHeader(purpose, count) + body;
    RoundTrip16(VERSION);
    RoundTrip16(PurposeNumber(purpose));
    RoundTrip16(count);
    assert bytes[..4] == MAGIC;
    assert bytes[4..6] == BigEndian16(VERSION);
    assert bytes[6..8] == BigEndian16(PurposeNumber(purpose));
    assert bytes[8..10] == BigEndian16(count);
  }

  lemma EncodeScannedHeader(bytes: Octets)
    requires ScanHeader(bytes).Ok?
    ensures var (purpose, count) := ScanHeader(bytes).value; bytes == EncodeHeader(purpose, count) + bytes[10..]
  {
    Canonical16(bytes[4..6]);
    Canonical16(bytes[6..8]);
    Canonical16(bytes[8..10]);
    assert bytes == bytes[..4] + bytes[4..6] + bytes[6..8] + bytes[8..10] + bytes[10..];
  }

  /** Printer then parser. */
  lemma DecodeInvertsEncode(t: CanonicalTranscript)
    requires Encode(t).Ok?
    ensures Decode(Encode(t).value) == Ok(t)
  {
    NeverTooLong(t);
    RequiredTagsIncrease(t.purpose);
    EncodedLengthIsLength(t.fields);
    var body := EncodeFields(t.fields);
    ScanEncodedHeader(t.purpose, |t.fields|, body);
    assert Encode(t).value[HEADER_LENGTH..] == body == body + [];
    DecodeEncodedFields(t.fields, [], None);
  }

  /** Parser then printer: accepted bytes are canonical. */
  lemma EncodeInvertsDecode(bytes: Octets)
    requires Decode(bytes).Ok?
    ensures Encode(Decode(bytes).value) == Ok(bytes)
  {
    EncodeScannedHeader(bytes);
    var t := Decode(bytes).value;
    NeverTooLong(t);
    ValidIffWellFormed(t);
    EncodeDecodedFields(bytes[10..], ScanHeader(bytes).value.1, None);
    assert EncodeFields(t.fields) + [] == EncodeFields(t.fields);
  }

  /** `decode` accepts exactly the outputs of `encode`, each as the transcript it encodes. */
  lemma MutualInverses(t: CanonicalTranscript, bytes: Octets)
    ensures Decode(bytes) == Ok(t) <==> Encode(t) == Ok(bytes)
  {
    if Decode(bytes) == Ok(t) {
      EncodeInvertsDecode(bytes);
    }
    if Encode(t) == Ok(bytes) {
      DecodeInvertsEncode(t);
    }
  }

  /** Different transcripts, in particular of different purposes, never share bytes. */
  lemma EncodingIsInjective(t: CanonicalTranscript, u: CanonicalTranscript)
    requires Encode(t).Ok? && Encode(t) == Encode(u)
    ensures t == u
  {
    DecodeInvertsEncode(t);
    DecodeInvertsEncode(u);
  }
}
