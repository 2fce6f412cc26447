/**
 * The local IPC framing of crates/ipc/src/framing.rs: a four-byte big-endian length,
 * then that many payload bytes.  `Parse` is the reference meaning of a whole byte
 * stream; the incremental decoder is proved against it in FrameDecoding.
 */
module Framing {
  import opened Wrappers
  import opened Bytes

  const LENGTH_PREFIX_BYTES := 4
  const U32_MAX := 0xFFFF_FFFF

  datatype FrameError = InvalidLimit | ZeroLength | FrameTooLarge | Truncated | Failed

  predicate ValidLimit(maximum: nat) {
    0 < maximum <= U32_MAX
  }

  function ValidateFrameLength(length: nat, maximum: nat): Option<FrameError> {
    if length == 0 then Some(ZeroLength)
    else if length > maximum then Some(FrameTooLarge)
    else None
  }

  /** `encode_frame_with_limit`: the limit is checked before the payload. */
  function EncodeFrameWithLimit(payload: Octets, maximum: nat): (r: Result<Octets, FrameError>)
    ensures r.Ok? <==> ValidLimit(maximum) && 0 < |payload| <= maximum
    ensures r.Ok? ==> |r.value| == LENGTH_PREFIX_BYTES + |payload| && Parse(r.value, maximum) == Parsed([payload], Open([]))
  {
    if !ValidLimit(maximum) then Err(InvalidLimit)
    else
      match ValidateFrameLength(|payload|, maximum)
      case Some(error) => Err(error)
      case None =>
        RoundTrip32(|payload|);
        var frame := BigEndian32(|payload|) + payload;
        assert frame[..4] == BigEndian32(|payload|) && frame[4..4 + |payload|] == payload && frame[4 + |payload|..] == [];
        Ok(frame)
  }

  /** How a parse of a stream ends: with unconsumed bytes of a partial frame, or rejected. */
  datatype Ending = Open(rest: Octets) | Rejected(error: FrameError)

  datatype Parsed = Parsed(frames: seq<Octets>, ending: Ending)

  function Parse(stream: Octets, maximum: nat): (p: Parsed)
    decreases |stream|
  {
    if |stream| < LENGTH_PREFIX_BYTES then Parsed([], Open(stream))
    else
      var length := FromBigEndian32(stream[..LENGTH_PREFIX_BYTES]);
      match ValidateFrameLength(length, maximum)
      case Some(error) => Parsed([], Rejected(error))
      case None =>
        var end := LENGTH_PREFIX_BYTES + length;
        if |stream| < end then Parsed([], Open(stream))
        else
          var tail := Parse(stream[end..], maximum);
          Parsed([stream[LENGTH_PREFIX_BYTES..end]] + tail.frames, tail.ending)
  }

  /** What a parse of `stream + more` is, given the parse of `stream`. */
  function Extend(p: Parsed, more: Octets, maximum: nat): Parsed {
    match p.ending
    case Rejected(_) => p
    case Open(rest) =>
      var q := Parse(rest + more, maximum);
      Parsed(p.frames + q.frames, q.ending)
  }

  /** Parsing past one complete, acceptable frame. */
  lemma ParseStep(frame: Octets, tail: Octets, maximum: nat)
    requires |frame| >= 4 && ValidateFrameLength(FromBigEndian32(frame[..4]), maximum).None?
    requires |frame| == 4 + FromBigEndian32(frame[..4]) as int
    ensures var q := Parse(tail, maximum); Parse(frame + tail, maximum) == Parsed([frame[4..]] + q.frames, q.ending)
  {
    var stream := frame + tail;
    assert stream[..4] == frame[..4];
    assert stream[4..|frame|] == frame[4..] && stream[|frame|..] == tail;
  }

  /** A stream with one complete, acceptable frame in front splits into that frame and its tail. */
  predicate HasFrame(stream: Octets, end: nat, maximum: nat) {
    && 4 <= end <= |stream|
    && ValidateFrameLength(FromBigEndian32(stream[..4]), maximum).None?
    && end == 4 + FromBigEndian32(stream[..4]) as int
  }

  lemma ParseFrame(stream: Octets, end: nat, maximum: nat)
    requires HasFrame(stream, end, maximum)
    ensures var q := Parse(stream[end..], maximum); Parse(stream, maximum) == Parsed([stream[4..end]] + q.frames, q.ending)
  {
    var frame := stream[..end];
    assert frame[..4] == stream[..4] && frame[4..] == stream[4..end] && stream == frame + stream[end..];
    ParseStep(frame, stream[end..], maximum);
  }

  lemma {:induction false} ParseIsIncremental(stream: Octets, more: Octets, maximum: nat)
    ensures Parse(stream + more, maximum) == Extend(Parse(stream, maximum), more, maximum)
    decreases |stream|
  {
    var whole := stream + more;
    if |stream| >= LENGTH_PREFIX_BYTES {
      assert whole[..4] == stream[..4];
      var end: nat := 4 + FromBigEndian32(stream[..4]) as int;
      if HasFrame(stream, end, maximum) {
        assert whole[4..end] == stream[4..end] && whole[end..] == stream[end..] + more;
        ParseFrame(stream, end, maximum);
        ParseFrame(whole, end, maximum);
        ParseIsIncremental(stream[end..], more, maximum);
        IncrementalFrames([stream[4..end]], Parse(stream[end..], maximum), more, maximum);
      }
    }
  }

  lemma IncrementalFrames(front: seq<Octets>, p: Parsed, more: Octets, maximum: nat)
    ensures var q := Extend(p, more, maximum);
            Extend(p.(frames := front + p.frames), more, maximum) == q.(frames := front + q.frames)
  {
    if p.ending.Open? {
      var r := Parse(p.ending.rest + more, maximum).frames;
      assert front + p.frames + r == front + (p.frames + r);
    }
  }

  /** An open parse stops strictly inside a frame it has not rejected. */
  lemma {:induction false} OpenRestIsPartial(stream: Octets, maximum: nat)
    requires Parse(stream, maximum).ending.Open?
    ensures Parse(Parse(stream, maximum).ending.rest, maximum) == Parsed([], Open(Parse(stream, maximum).ending.rest))
    decreases |stream|
  {
    if |stream| >= 4 {
      var end: nat := 4 + FromBigEndian32(stream[..4]) as int;
      if HasFrame(stream, end, maximum) {
        ParseFrame(stream, end, maximum);
        OpenRestIsPartial(stream[end..], maximum);
      }
    }
  }

  predicate ValidPayloads(payloads: seq<Octets>, maximum: nat) {
    forall p <- payloads :: 0 < |p| <= maximum
  }

  /** The concatenated encodings of a list of payloads. */
  function EncodeAll(payloads: seq<Octets>): Octets
    requires forall p <- payloads :: |p| <= U32_MAX
  {
    if payloads == [] then []
    else BigEndian32(|payloads[0]|) + payloads[0] + EncodeAll(payloads[1..])
  }

  /** Round trip: whatever was framed is what is parsed, with nothing left over. */
  lemma {:induction false} ParseInvertsEncoding(payloads: seq<Octets>, maximum: nat)
    requires ValidLimit(maximum) && ValidPayloads(payloads, maximum)
    ensures Parse(EncodeAll(payloads), maximum) == Parsed(payloads, Open([]))
    decreases |payloads|
  {
    if payloads != [] {
      var n := |payloads[0]|;
      var rest := EncodeAll(payloads[1..]);
      var stream := EncodeAll(payloads);
      RoundTrip32(n);
      assert stream == BigEndian32(n) + payloads[0] + rest;
      assert stream[..4] == BigEndian32(n);
      assert stream[4..4 + n] == payloads[0];
      assert stream[4 + n..] == rest;
      ParseInvertsEncoding(payloads[1..], maximum);
      assert payloads == [payloads[0]] + payloads[1..];
    }
  }

  /** What the frames and the remainder of a parse say about the bytes of the stream. */
  predicate Accounts(stream: Octets, p: Parsed, maximum: nat)
    requires ValidLimit(maximum)
  {
    && ValidPayloads(p.frames, maximum)
    && (p.ending.Open? ==> stream == EncodeAll(p.frames) + p.ending.rest)
  }

  /** Unique parse: the bytes an open parse consumed are exactly the encodings of its frames. */
  lemma {:induction false} ParsedBytesAreEncodings(stream: Octets, maximum: nat)
    requires ValidLimit(maximum)
    ensures Accounts(stream, Parse(stream, maximum), maximum)
    decreases |stream|
  {
    if |stream| >= 4 {
      var end: nat := 4 + FromBigEndian32(stream[..4]) as int;
      if HasFrame(stream, end, maximum) {
        ParseFrame(stream, end, maximum);
        ParsedBytesAreEncodings(stream[end..], maximum);
        Canonical32(stream[..4]);
        assert stream == BigEndian32(|stream[4..end]|) + stream[4..end] + stream[end..];
        AccountsForFrame(stream[4..end], stream[end..], Parse(stream[end..], maximum), maximum);
      }
    }
  }

  lemma AccountsForFrame(payload: Octets, tail: Octets, p: Parsed, maximum: nat)
    requires ValidLimit(maximum) && 0 < |payload| <= maximum && Accounts(tail, p, maximum)
    ensures Accounts(BigEndian32(|payload|) + payload + tail, Parsed([payload] + p.frames, p.ending), maximum)
  {
    assert ([payload] + p.frames)[1..] == p.frames;
  }

  /** A stream parses cleanly into `payloads` exactly when it is their concatenated encoding. */
  lemma ParseIffEncoding(stream: Octets, payloads: seq<Octets>, maximum: nat)
    requires ValidLimit(maximum)
    ensures Parse(stream, maximum) == Parsed(payloads, Open([]))
            <==> ValidPayloads(payloads, maximum) && stream == EncodeAll(payloads)
  {
    ParsedBytesAreEncodings(stream, maximum);
    if ValidPayloads(payloads, maximum) {
      ParseInvertsEncoding(payloads, maximum);
    }
    if Parse(stream, maximum) == Parsed(payloads, Open([])) {
      assert EncodeAll(payloads) + [] == EncodeAll(payloads);
    }
  }
}
