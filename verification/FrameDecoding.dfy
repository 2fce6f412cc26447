/**
 * The incremental decoder of crates/ipc/src/framing.rs and the exact-frame decoder
 * built on it in crates/privileged-bridge/src/framing.rs.
 */
module FrameDecoding {
  import opened Wrappers
  import opened Bytes
  import opened Framing

  const MAX_PRIVILEGED_BRIDGE_FRAME_BYTES := 262_144

  type PushResult = Result<seq<Octets>, FrameError>

  /** What a decoder has retained of the bytes pushed so far. */
  datatype DecoderView = DecoderView(pending: Octets, failed: bool)

  const FRESH := DecoderView([], false)

  /** One `push`, stated on the reference parse of the retained bytes plus the chunk. */
  function PushSpec(v: DecoderView, chunk: Octets, maximum: nat): (DecoderView, PushResult) {
    if v.failed then (v, Err(Failed))
    else
      var p := Parse(v.pending + chunk, maximum);
      match p.ending
      case Open(rest) => (DecoderView(rest, false), Ok(p.frames))
      case Rejected(error) => (v.(failed := true), Err(error))
  }

  class FrameDecoder {
    const header: array<Byte>
    var headerLength: nat
    var expectedPayloadLength: Option<nat>
    var payload: Octets
    var failed: bool
    const maximum: nat
    /** The bytes pushed but not yet handed out when the last successful push returned. */
    ghost var pending: Octets

    ghost predicate Valid()
      reads this, header
    {
      && header.Length == LENGTH_PREFIX_BYTES
      && ValidLimit(maximum)
      && headerLength <= LENGTH_PREFIX_BYTES
      && (!failed ==> Holds(pending))
    }

    /** The partial frame held in the fields of a decoder that has not failed is `s`. */
    ghost predicate Holds(s: Octets)
      requires header.Length == LENGTH_PREFIX_BYTES
      reads this, header
    {
      && headerLength < LENGTH_PREFIX_BYTES
      && (expectedPayloadLength.None? ==> payload == [] && s == header[..headerLength])
      && (expectedPayloadLength.Some? ==>
        && headerLength == 0
        && |payload| < expectedPayloadLength.value <= maximum <= U32_MAX
        && s == BigEndian32(expectedPayloadLength.value) + payload)
    }

    ghost function View(): DecoderView
      reads this
    {
      DecoderView(pending, failed)
    }

    constructor WithValidLimit(maximum: nat)
      requires ValidLimit(maximum)
      ensures Valid() && fresh(header) && this.maximum == maximum && View() == FRESH
    {
      this.header := new Byte[LENGTH_PREFIX_BYTES](_ => 0);
      headerLength, expectedPayloadLength, payload, failed := 0, None, [], false;
      this.maximum := maximum;
      pending := [];
    }

    method Push(chunk: Octets) returns (r: PushResult)
      requires Valid()
      modifies this, header
      ensures Valid()
      ensures (View(), r) == PushSpec(old(View()), chunk, maximum)
    {
      if failed {
        return Err(Failed);
      }
      r := PushValid(chunk);
      if r.Err? {
        failed := true;
      }
    }

    method Finish() returns (r: Option<FrameError>)
      requires Valid()
      ensures r == if failed then Some(Failed) else if pending == [] then None else Some(Truncated)
    {
      if failed {
        return Some(Failed);
      }
      if headerLength != 0 || expectedPayloadLength.Some? {
        return Some(Truncated);
      }
      r := None;
    }

    /** Bytes buffered in the header and the payload; a completed header is not counted again. */
    method BufferedBytes() returns (n: nat)
      requires Valid()
      ensures !failed ==> n == |pending| - (if expectedPayloadLength.Some? then LENGTH_PREFIX_BYTES else 0)
      ensures !failed ==> n < LENGTH_PREFIX_BYTES || n < maximum
    {
      n := headerLength + |payload|;
    }

    method PushValid(chunk: Octets) returns (r: PushResult)
      requires Valid() && !failed
      modifies this, header
      ensures !failed && headerLength <= LENGTH_PREFIX_BYTES
      ensures r.Ok? ==> Valid() && Parse(old(pending) + chunk, maximum) == Parsed(r.value, Open(pending))
      ensures r.Err? ==> pending == old(pending) && Parse(old(pending) + chunk, maximum).ending == Rejected(r.error)
    {
      hide Parse;
      var frames: seq<Octets> := [];
      var offset := 0;
      ghost var seen, held := pending, pending;
      PendingIsPartial();
      while offset < |chunk|
        invariant offset <= |chunk|
        invariant header.Length == LENGTH_PREFIX_BYTES && !failed && pending == old(pending) && Holds(held)
        invariant seen == pending + chunk[..offset]
        invariant Parse(seen, maximum) == Parsed(frames, Open(held))
      {
        ghost var retained := held;
        var copied, completed, error;
        copied, completed, error, held := Fill(chunk, offset, held);
        ghost var piece := chunk[offset..offset + copied];
        Absorb(seen, piece, frames, retained, completed, if error.None? then Open(held) else Rejected(error.value), maximum);
        TakeMore(pending, chunk, offset, offset + copied);
        offset := offset + copied;
        seen := seen + piece;
        if error.Some? {
          RejectionIsFinal(seen, chunk[offset..], maximum);
          TakeMore(pending, chunk, offset, |chunk|);
          return Err(error.value);
        }
        frames := frames + completed;
      }
      assert chunk[..offset] == chunk;
      pending := held;
      r := Ok(frames);
    }

    lemma PendingIsPartial()
      requires Valid() && !failed
      ensures Parse(pending, maximum) == Parsed([], Open(pending))
    {
      if expectedPayloadLength.Some? {
        PayloadProgress(expectedPayloadLength.value, payload, maximum);
      }
    }

    /** One turn of the loop: the payload branch or the header branch. */
    method Fill(chunk: Octets, offset: nat, ghost held: Octets)
      returns (copied: nat, completed: seq<Octets>, error: Option<FrameError>, ghost after: Octets)
      requires header.Length == LENGTH_PREFIX_BYTES && ValidLimit(maximum) && Holds(held) && offset < |chunk|
      modifies this`headerLength, this`expectedPayloadLength, this`payload, header
      ensures headerLength <= LENGTH_PREFIX_BYTES && 0 < copied <= |chunk| - offset
      ensures error.None? ==> Holds(after)
      ensures Parse(held + chunk[offset..offset + copied], maximum)
              == Parsed(completed, if error.None? then Open(after) else Rejected(error.value))
    {
      if expectedPayloadLength.Some? {
        copied, completed, after := FillPayload(chunk, offset, held);
        error := None;
      } else {
        copied, error, after := FillHeader(chunk, offset, held);
        completed := [];
      }
    }

    /** The payload half of the loop body. */
    method FillPayload(chunk: Octets, offset: nat, ghost held: Octets)
      returns (copied: nat, completed: seq<Octets>, ghost after: Octets)
      requires header.Length == LENGTH_PREFIX_BYTES && ValidLimit(maximum) && Holds(held)
      requires expectedPayloadLength.Some? && offset < |chunk|
      modifies this`payload, this`expectedPayloadLength
      ensures Holds(after) && 0 < copied <= |chunk| - offset
      ensures Parse(held + chunk[offset..offset + copied], maximum)
              == Parsed(completed, Open(after))
    {
      var expected := expectedPayloadLength.value;
      var remaining := expected - |payload|;
      copied := if remaining < |chunk| - offset then remaining else |chunk| - offset;
      completed := [];
      payload := payload + chunk[offset..offset + copied];
      after := held + chunk[offset..offset + copied];
      assert after == BigEndian32(expected) + payload;
      PayloadProgress(expected, payload, maximum);
      if |payload| == expected {
        completed := [payload];
        payload := [];
        expectedPayloadLength := None;
        after := [];
        assert header[..headerLength] == [];
      }
    }

    /** `header[header_length..].copy_from_slice(piece)`. */
    method CopyIntoHeader(piece: Octets)
      requires headerLength + |piece| <= header.Length
      modifies header
      ensures header[..headerLength + |piece|] == old(header[..headerLength]) + piece
    {
      forall k | headerLength <= k < headerLength + |piece| {
        header[k] := piece[k - headerLength];
      }
      var filled := old(header[..headerLength]) + piece;
      forall k | 0 <= k < headerLength + |piece|
        ensures header[k] == filled[k]
      {
      }
    }

    /** The header half of the loop body. */
    method FillHeader(chunk: Octets, offset: nat, ghost held: Octets)
      returns (copied: nat, error: Option<FrameError>, ghost after: Octets)
      requires header.Length == LENGTH_PREFIX_BYTES && ValidLimit(maximum) && Holds(held)
      requires expectedPayloadLength.None? && offset < |chunk|
      modifies this`headerLength, this`expectedPayloadLength, header
      ensures headerLength <= LENGTH_PREFIX_BYTES && 0 < copied <= |chunk| - offset
      ensures error.None? ==> Holds(after)
      ensures Parse(held + chunk[offset..offset + copied], maximum)
              == Parsed([], if error.None? then Open(after) else Rejected(error.value))
    {
      var remaining := LENGTH_PREFIX_BYTES - headerLength;
      copied := if remaining < |chunk| - offset then remaining else |chunk| - offset;
      error := None;
      CopyIntoHeader(chunk[offset..offset + copied]);
      after := held + chunk[offset..offset + copied];
      headerLength := headerLength + copied;
      HeaderProgress(after, maximum);
      if headerLength == LENGTH_PREFIX_BYTES {
        assert header[..] == after;
        var length := FromBigEndian32(header[..]);
        error := ValidateFrameLength(length, maximum);
        if error.Some? {
          return;
        }
        headerLength := 0;
        expectedPayloadLength := Some(length);
        assert after == BigEndian32(length) + payload;
      }
    }
  }

  lemma TakeMore(prefix: Octets, chunk: Octets, from: nat, to: nat)
    requires from <= to <= |chunk|
    ensures prefix + chunk[..from] + chunk[from..to] == prefix + chunk[..to]
    ensures to == |chunk| ==> chunk[from..to] == chunk[from..] && chunk[..to] == chunk
  {
    assert chunk[..from] + chunk[from..to] == chunk[..to];
  }

  /** The parse after one more piece, from the parse so far and what the decoder retained. */
  lemma Absorb(seen: Octets, piece: Octets, frames: seq<Octets>, retained: Octets, completed: seq<Octets>, ending: Ending, maximum: nat)
    requires Parse(seen, maximum) == Parsed(frames, Open(retained))
    requires Parse(retained + piece, maximum) == Parsed(completed, ending)
    ensures Parse(seen + piece, maximum) == Parsed(frames + completed, ending)
  {
    ParseIsIncremental(seen, piece, maximum);
  }

  lemma RejectionIsFinal(seen: Octets, rest: Octets, maximum: nat)
    requires Parse(seen, maximum).ending.Rejected?
    ensures Parse(seen + rest, maximum).ending == Parse(seen, maximum).ending
  {
    ParseIsIncremental(seen, rest, maximum);
  }

  /** A header alone, complete or not, parses to no frame. */
  lemma HeaderProgress(header: Octets, maximum: nat)
    requires |header| <= LENGTH_PREFIX_BYTES
    ensures |header| < LENGTH_PREFIX_BYTES ==> Parse(header, maximum) == Parsed([], Open(header))
    ensures |header| == LENGTH_PREFIX_BYTES ==>
              && BigEndian32(FromBigEndian32(header)) == header
              && Parse(header, maximum) ==
                 match ValidateFrameLength(FromBigEndian32(header), maximum)
                 case Some(error) => Parsed([], Rejected(error))
                 case None => Parsed([], Open(header))
  {
    if |header| == LENGTH_PREFIX_BYTES {
      assert header[..4] == header;
      Canonical32(header);
    }
  }

  /** What a length prefix followed by at most that many payload bytes parses to. */
  lemma PayloadProgress(expected: nat, payload: Octets, maximum: nat)
    requires ValidLimit(maximum) && 0 < expected <= maximum && |payload| <= expected
    ensures var s := BigEndian32(expected) + payload;
            Parse(s, maximum) == if |payload| == expected then Parsed([payload], Open([])) else Parsed([], Open(s))
  {
    RoundTrip32(expected);
    var s := BigEndian32(expected) + payload;
    assert s[..4] == BigEndian32(expected);
    if |payload| == expected {
      assert s[4..4 + expected] == payload && s[4 + expected..] == [];
    }
  }

  // ---- Whole runs of a decoder ----

  datatype RunResult = RunResult(view: DecoderView, results: seq<PushResult>)

  function PushAll(v: DecoderView, chunks: seq<Octets>, maximum: nat): (run: RunResult)
    ensures |run.results| == |chunks|
    decreases |chunks|
  {
    if chunks == [] then RunResult(v, [])
    else
      var (next, r) := PushSpec(v, chunks[0], maximum);
      var tail := PushAll(next, chunks[1..], maximum);
      RunResult(tail.view, [r] + tail.results)
  }

  function Concat(chunks: seq<Octets>): Octets {
    if chunks == [] then [] else chunks[0] + Concat(chunks[1..])
  }

  /** Every frame the calls of a run handed out, in order. */
  function Delivered(results: seq<PushResult>): seq<Octets> {
    if results == [] then []
    else (if results[0].Ok? then results[0].value else []) + Delivered(results[1..])
  }

  lemma {:induction false} FailedDecoderStaysSilent(v: DecoderView, chunks: seq<Octets>, maximum: nat)
    requires v.failed
    ensures var run := PushAll(v, chunks, maximum);
            run.view == v && Delivered(run.results) == [] && forall r <- run.results :: r == Err(Failed)
    decreases |chunks|
  {
    if chunks != [] {
      FailedDecoderStaysSilent(v, chunks[1..], maximum);
    }
  }

  /** The whole stream seen from a decoder that already retains `v.pending`. */
  lemma {:induction false} RunFrom(v: DecoderView, chunks: seq<Octets>, maximum: nat)
    requires !v.failed && Parse(v.pending, maximum) == Parsed([], Open(v.pending))
    ensures var run := PushAll(v, chunks, maximum);
            var whole := Parse(v.pending + Concat(chunks), maximum);
            && (run.view.failed <==> whole.ending.Rejected?)
            && Delivered(run.results) <= whole.frames
            && (!run.view.failed ==> whole == Parsed(Delivered(run.results), Open(run.view.pending)))
            && (forall r <- run.results :: r.Err? ==> run.view.failed && (r.error == Failed || Rejected(r.error) == whole.ending))
    decreases |chunks|
  {
    if chunks == [] {
      assert v.pending + [] == v.pending;
    } else {
      var p := Parse(v.pending + chunks[0], maximum);
      var (next, r) := PushSpec(v, chunks[0], maximum);
      ParseIsIncremental(v.pending + chunks[0], Concat(chunks[1..]), maximum);
      assert v.pending + Concat(chunks) == v.pending + chunks[0] + Concat(chunks[1..]);
      if p.ending.Open? {
        OpenRestIsPartial(v.pending + chunks[0], maximum);
        RunFrom(next, chunks[1..], maximum);
      } else {
        FailedDecoderStaysSilent(next, chunks[1..], maximum);
      }
    }
  }

  /**
   * Chunking does not matter: however a stream is cut into pushes, a fresh decoder fails
   * iff the reference parse rejects the stream; what it delivers is a prefix of that parse,
   * all of it when no push failed; and what it then retains is the parse's open remainder.
   */
  lemma ChunkingDoesNotMatter(chunks: seq<Octets>, maximum: nat)
    requires ValidLimit(maximum)
    ensures var run := PushAll(FRESH, chunks, maximum);
            var whole := Parse(Concat(chunks), maximum);
            && (run.view.failed <==> whole.ending.Rejected?)
            && Delivered(run.results) <= whole.frames
            && (!run.view.failed ==> whole == Parsed(Delivered(run.results), Open(run.view.pending)))
            && (forall r <- run.results :: r.Err? ==> r.error == Failed || Rejected(r.error) == whole.ending)
  {
    RunFrom(FRESH, chunks, maximum);
    assert [] + Concat(chunks) == Concat(chunks);
  }

  /** Two ways of cutting one stream leave a decoder in the same state, with the same frames out. */
  lemma SameBytesSameDecoder(left: seq<Octets>, right: seq<Octets>, maximum: nat)
    requires ValidLimit(maximum) && Concat(left) == Concat(right)
    ensures var a, b := PushAll(FRESH, left, maximum), PushAll(FRESH, right, maximum);
            && a.view.failed == b.view.failed
            && (!a.view.failed ==> a.view == b.view && Delivered(a.results) == Delivered(b.results))
  {
    ChunkingDoesNotMatter(left, maximum);
    ChunkingDoesNotMatter(right, maximum);
  }

  /**
   * Round trip through any chunking: a run ends between frames having delivered `payloads`
   * exactly when the bytes pushed are the concatenated encodings of those payloads.
   */
  lemma RechunkedRoundTrip(chunks: seq<Octets>, payloads: seq<Octets>, maximum: nat)
    requires ValidLimit(maximum)
    ensures var run := PushAll(FRESH, chunks, maximum);
            run.view == FRESH && Delivered(run.results) == payloads
            <==> ValidPayloads(payloads, maximum) && Concat(chunks) == EncodeAll(payloads)
  {
    ChunkingDoesNotMatter(chunks, maximum);
    ParseIffEncoding(Concat(chunks), payloads, maximum);
  }

  // ---- Exactly one bridge frame ----

  datatype BridgeFrameError = Frame(error: FrameError) | ExpectedSingleFrame

  /** `with_limit`: a limit is positive and fits the four-byte prefix. */
  method WithLimit(maximum: nat) returns (r: Result<FrameDecoder, FrameError>)
    ensures !ValidLimit(maximum) ==> r == Err(InvalidLimit)
    ensures ValidLimit(maximum) ==>
              && r.Ok? && fresh(r.value) && fresh(r.value.header)
              && r.value.Valid() && r.value.maximum == maximum && r.value.View() == FRESH
  {
    if !ValidLimit(maximum) {
      return Err(InvalidLimit);
    }
    var decoder := new FrameDecoder.WithValidLimit(maximum);
    r := Ok(decoder);
  }

  /** `decode_exact_bridge_frame`. */
  method DecodeExactBridgeFrame(encoded: Octets) returns (r: Result<Octets, BridgeFrameError>)
    ensures r.Ok? <==> exists p: Octets :: EncodeFrameWithLimit(p, MAX_PRIVILEGED_BRIDGE_FRAME_BYTES) == Ok(encoded)
    ensures r.Ok? ==> EncodeFrameWithLimit(r.value, MAX_PRIVILEGED_BRIDGE_FRAME_BYTES) == Ok(encoded)
    ensures r.Err? ==>
              var p := Parse(encoded, MAX_PRIVILEGED_BRIDGE_FRAME_BYTES);
              r.error == match p.ending
                         case Rejected(error) => Frame(error)
                         case Open(rest) => if rest != [] then Frame(Truncated) else ExpectedSingleFrame
  {
    var made := WithLimit(MAX_PRIVILEGED_BRIDGE_FRAME_BYTES);
    var decoder := made.value;
    assert [] + encoded == encoded;
    var pushed := decoder.Push(encoded);
    SingleFrameParse(encoded, MAX_PRIVILEGED_BRIDGE_FRAME_BYTES);
    if pushed.Err? {
      return Err(Frame(pushed.error));
    }
    var ended := decoder.Finish();
    if ended.Some? {
      return Err(Frame(ended.value));
    }
    if |pushed.value| == 0 || |pushed.value| > 1 {
      return Err(ExpectedSingleFrame);
    }
    r := Ok(pushed.value[0]);
  }

  lemma SingleFrameParse(encoded: Octets, maximum: nat)
    requires ValidLimit(maximum)
    ensures forall p: Octets :: EncodeFrameWithLimit(p, maximum) == Ok(encoded) <==> Parse(encoded, maximum) == Parsed([p], Open([]))
  {
    forall p: Octets
      ensures EncodeFrameWithLimit(p, maximum) == Ok(encoded) <==> Parse(encoded, maximum) == Parsed([p], Open([]))
    {
      ParseIffEncoding(encoded, [p], maximum);
      if Parse(encoded, maximum) == Parsed([p], Open([])) {
        assert p in [p];
        assert EncodeAll([p]) == BigEndian32(|p|) + p;
      }
    }
  }
}
