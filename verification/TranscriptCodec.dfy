/** The loops of gen/rust/src/canonical_transcript.rs, proved to compute `Transcript.Encode` and `Transcript.Decode`. */
module TranscriptCodec {
  import opened Wrappers
  import opened Bytes
  import T = Transcript

  /** `Reader`: a cursor over borrowed bytes. */
  class Reader {
    const bytes: Octets
    var offset: nat

    ghost predicate Valid()
      reads this
    {
      offset <= |bytes|
    }

    ghost function Remaining(): Octets
      requires Valid()
      reads this
    {
      bytes[offset..]
    }

    constructor (bytes: Octets)
      ensures Valid() && this.bytes == bytes && Remaining() == bytes
    {
      this.bytes := bytes;
      offset := 0;
    }

    method ReadExact(length: nat) returns (r: Result<Octets, T.TranscriptError>)
      requires Valid()
      modifies this
      ensures Valid()
      ensures |old(Remaining())| < length ==> r == Err(T.Truncated) && offset == old(offset)
      ensures |old(Remaining())| >= length ==>
                r == Ok(old(Remaining())[..length]) && Remaining() == old(Remaining())[length..]
    {
      var end := offset + length;
      if end > |bytes| {
        return Err(T.Truncated);
      }
      assert bytes[offset..][..length] == bytes[offset..end] && bytes[offset..][length..] == bytes[end..];
      r := Ok(bytes[offset..end]);
      offset := end;
    }

    method ReadU16() returns (r: Result<U16, T.TranscriptError>)
      requires Valid()
      modifies this
      ensures Valid()
      ensures |old(Remaining())| < 2 ==> r == Err(T.Truncated) && offset == old(offset)
      ensures |old(Remaining())| >= 2 ==>
                r == Ok(FromBigEndian16(old(Remaining())[..2])) && Remaining() == old(Remaining())[2..]
    {
      var s := ReadExact(2);
      r := if s.Ok? then Ok(FromBigEndian16(s.value)) else Err(s.error);
    }

    method ReadU32() returns (r: Result<U32, T.TranscriptError>)
      requires Valid()
      modifies this
      ensures Valid()
      ensures |old(Remaining())| < 4 ==> r == Err(T.Truncated) && offset == old(offset)
      ensures |old(Remaining())| >= 4 ==>
                r == Ok(FromBigEndian32(old(Remaining())[..4])) && Remaining() == old(Remaining())[4..]
    {
      var s := ReadExact(4);
      r := if s.Ok? then Ok(FromBigEndian32(s.value)) else Err(s.error);
    }

    method IsFinished() returns (b: bool)
      requires Valid()
      ensures b <==> Remaining() == []
    {
      b := offset == |bytes|;
    }
  }

  method CheckEachField(required: seq<U16>, fields: seq<T.Field>) returns (r: Option<T.TranscriptError>)
    ensures r == T.CheckFields(required, fields, None)
  {
    hide T.CheckField;
    var previous: Option<U16> := None;
    for i := 0 to |fields|
      invariant T.CheckFields(required, fields, None) == T.CheckFields(required, fields[i..], previous)
    {
      var field := fields[i];
      assert fields[i..][0] == field && fields[i..][1..] == fields[i + 1..];
      r := T.CheckField(required, field, previous);
      if r.Some? {
        return;
      }
      previous := Some(field.tag);
    }
    r := None;
  }

  method ValidateFields(purpose: T.Purpose, fields: seq<T.Field>) returns (r: Option<T.TranscriptError>)
    ensures r == T.ValidateFields(purpose, fields)
    ensures r.None? <==> T.WellFormed(T.CanonicalTranscript(purpose, fields))
  {
    hide T.CheckFields;
    hide T.RequiredTags;
    T.ValidIffWellFormed(T.CanonicalTranscript(purpose, fields));
    if |fields| > T.MAX_FIELDS {
      return Some(T.TooManyFields);
    }
    var required := T.RequiredTags(purpose);
    r := CheckEachField(required, fields);
    if r.Some? {
      return;
    }
    if |fields| < |required| {
      return Some(T.MissingField);
    }
    if |fields| > |required| {
      return Some(T.UnknownField);
    }
    for i := 0 to |fields|
      invariant forall k | 0 <= k < i :: fields[k].tag == required[k]
    {
      if fields[i].tag != required[i] {
        return Some(T.MissingField);
      }
    }
    r := None;
  }

  /** The `fold` over the field lengths. */
  method EncodedLength(fields: seq<T.Field>) returns (length: nat)
    ensures length == T.HEADER_LENGTH + T.EncodedLength(fields)
  {
    length := T.HEADER_LENGTH;
    for i := 0 to |fields|
      invariant length + T.EncodedLength(fields[i..]) == T.HEADER_LENGTH + T.EncodedLength(fields)
    {
      length := length + T.FIELD_HEADER_LENGTH + |fields[i].value|;
    }
  }

  method WriteFields(header: Octets, fields: seq<T.Field>) returns (output: Octets)
    requires forall f <- fields :: |f.value| <= T.MAX_FIELD_LENGTH
    ensures output == header + T.EncodeFields(fields)
  {
    hide T.EncodeField;
    output := header;
    for i := 0 to |fields|
      invariant output + T.EncodeFields(fields[i..]) == header + T.EncodeFields(fields)
    {
      ghost var before := output;
      output := output + T.EncodeField(fields[i]);
      assert fields[i..][1..] == fields[i + 1..];
      assert output + T.EncodeFields(fields[i + 1..]) == before + T.EncodeFields(fields[i..]);
    }
    assert output + [] == output;
  }

  method Encode(t: T.CanonicalTranscript) returns (r: Result<Octets, T.TranscriptError>)
    ensures r == T.Encode(t)
    ensures r.Ok? ==> T.Decode(r.value) == Ok(t)
  {
    hide T.WellFormed;
    hide T.ValidateFields;
    hide T.Decode;
    hide T.EncodeHeader;
    hide T.EncodeFields;
    var invalid := ValidateFields(t.purpose, t.fields);
    T.NeverTooLong(t);
    if invalid.Some? {
      return Err(invalid.value);
    }
    T.DecodeInvertsEncode(t);
    var encodedLength := EncodedLength(t.fields);
    if encodedLength > T.MAX_TRANSCRIPT_LENGTH {
      return Err(T.TranscriptTooLong);
    }
    T.WellFormedBounds(t);
    var output := WriteFields(T.EncodeHeader(t.purpose, |t.fields|), t.fields);
    r := Ok(output);
  }

  method ReadField(reader: Reader, previous: Option<U16>) returns (r: Result<T.Field, T.TranscriptError>)
    requires reader.Valid()
    modifies reader
    ensures reader.Valid()
    ensures r.Err? ==> T.ScanField(old(reader.Remaining()), previous) == Err(r.error)
    ensures r.Ok? ==> T.ScanField(old(reader.Remaining()), previous) == Ok((r.value, reader.Remaining()))
  {
    ghost var bytes := reader.Remaining();
    var tag := reader.ReadU16();
    if tag.Err? {
      return Err(tag.error);
    }
    var disorder := T.CheckOrder(tag.value, previous);
    if disorder.Some? {
      return Err(disorder.value);
    }
    var length := reader.ReadU32();
    if length.Err? {
      return Err(length.error);
    }
    assert bytes[2..][..4] == bytes[2..6] && bytes[2..][4..] == bytes[6..];
    if length.value > T.MAX_FIELD_LENGTH {
      return Err(T.FieldTooLong);
    }
    var value := reader.ReadExact(length.value);
    if value.Err? {
      return Err(value.error);
    }
    ghost var end := 6 + length.value as int;
    assert bytes[6..][..length.value] == bytes[6..end] && bytes[6..][length.value..] == bytes[end..];
    r := Ok(T.Field(tag.value, value.value));
  }

  method ReadFields(reader: Reader, count: nat) returns (r: Result<seq<T.Field>, T.TranscriptError>)
    requires reader.Valid()
    modifies reader
    ensures reader.Valid()
    ensures r.Err? ==> T.DecodeFields(old(reader.Remaining()), count, None) == Err(r.error)
    ensures r.Ok? ==> T.DecodeFields(old(reader.Remaining()), count, None) == Ok(T.Scanned(r.value, reader.Remaining()))
  {
    hide T.ScanField;
    var fields: seq<T.Field> := [];
    var previous: Option<U16> := None;
    ghost var body := reader.Remaining();
    assert forall s: T.Scanned :: [] + s.fields == s.fields;
    for i := 0 to count
      invariant reader.Valid()
      invariant T.DecodeFields(body, count, None) == T.Prepend(fields, T.DecodeFields(reader.Remaining(), count - i, previous))
    {
      var field := ReadField(reader, previous);
      if field.Err? {
        return Err(field.error);
      }
      assert forall s: T.Scanned :: fields + ([field.value] + s.fields) == fields + [field.value] + s.fields;
      fields := fields + [field.value];
      previous := Some(field.value.tag);
    }
    assert fields + [] == fields;
    r := Ok(fields);
  }

  method ReadHeader(reader: Reader) returns (r: Result<(T.Purpose, U16), T.TranscriptError>)
    requires reader.Valid()
    modifies reader
    ensures reader.Valid()
    ensures r == T.ScanHeader(old(reader.Remaining()))
    ensures r.Ok? ==> reader.Remaining() == old(reader.Remaining())[T.HEADER_LENGTH..]
  {
    ghost var bytes := reader.Remaining();
    var magic := reader.ReadExact(|T.MAGIC|);
    if magic.Err? {
      return Err(magic.error);
    }
    if magic.value != T.MAGIC {
      return Err(T.InvalidMagic);
    }
    var version := reader.ReadU16();
    if version.Err? {
      return Err(version.error);
    }
    assert bytes[4..][..2] == bytes[4..6] && bytes[4..][2..] == bytes[6..];
    if version.value != T.VERSION {
      return Err(T.UnknownVersion);
    }
    var number := reader.ReadU16();
    if number.Err? {
      return Err(number.error);
    }
    assert bytes[6..][..2] == bytes[6..8] && bytes[6..][2..] == bytes[8..];
    var purpose := T.PurposeOf(number.value);
    if purpose.None? {
      return Err(T.UnknownPurpose);
    }
    var count := reader.ReadU16();
    if count.Err? {
      return Err(count.error);
    }
    assert bytes[8..][..2] == bytes[8..10] && bytes[8..][2..] == bytes[10..];
    if count.value > T.MAX_FIELDS {
      return Err(T.TooManyFields);
    }
    r := Ok((purpose.value, count.value));
  }

  method Decode(bytes: Octets) returns (r: Result<T.CanonicalTranscript, T.TranscriptError>)
    ensures r == T.Decode(bytes)
    ensures r.Ok? ==> T.Encode(r.value) == Ok(bytes)
  {
    hide T.ScanHeader;
    hide T.ValidateFields;
    hide T.DecodeFields;
    if T.Decode(bytes).Ok? {
      T.EncodeInvertsDecode(bytes);
    }
    if |bytes| > T.MAX_TRANSCRIPT_LENGTH {
      return Err(T.TranscriptTooLong);
    }
    var reader := new Reader(bytes);
    var header := ReadHeader(reader);
    if header.Err? {
      return Err(header.error);
    }
    var (purpose, count) := header.value;
    var fields := ReadFields(reader, count);
    if fields.Err? {
      return Err(fields.error);
    }
    var finished := reader.IsFinished();
    if !finished {
      return Err(T.TrailingBytes);
    }
    var invalid := ValidateFields(purpose, fields.value);
    if invalid.Some? {
      return Err(invalid.value);
    }
    r := Ok(T.CanonicalTranscript(purpose, fields.value));
  }
}
