/**
 The length-prefixed wire framing, in its Go form (internal/api/api.go) and its
 Python form (scripts/canary/managed.py), over streams that accept and deliver
 bytes in pieces of any size.
 */
module Framing {
  import opened Wrappers
  import opened Bytes

  const MAX_FRAME_BYTES := 0x20_0000

  datatype FrameError = WriteFailed | ShortWrite | TooLarge | Truncated | InvalidLength

  // ---------------------------------------------------------------------
  // What is on the wire
  // ---------------------------------------------------------------------

  /** binary.BigEndian.PutUint32 */
  function PutUint32(n: nat): (b: Bytes)
    requires n < 0x1_0000_0000
    ensures |b| == 4 && Uint32(b) == n
  {
    var b := [(n / 0x100_0000) as byte, (n / 0x1_0000 % 0x100) as byte,
              (n / 0x100 % 0x100) as byte, (n % 0x100) as byte];
    Uint32Parts(n);
    b
  }

  lemma Uint32Parts(n: nat)
    ensures n / 0x100_0000 * 0x100_0000 + n / 0x1_0000 % 0x100 * 0x1_0000 + n / 0x100 % 0x100 * 0x100 + n % 0x100 == n
  {
    assert n / 0x1_0000 == n / 0x100 / 0x100;
    assert n / 0x100_0000 == n / 0x1_0000 / 0x100;
  }

  /** binary.BigEndian.Uint32 */
  function Uint32(b: Bytes): nat
    requires |b| == 4
  {
    b[0] as nat * 0x100_0000 + b[1] as nat * 0x1_0000 + b[2] as nat * 0x100 + b[3] as nat
  }

  lemma BytesOf(a: nat, b: nat, c: nat, d: nat)
    requires a < 0x100 && b < 0x100 && c < 0x100 && d < 0x100
    ensures var n := a * 0x100_0000 + b * 0x1_0000 + c * 0x100 + d;
            n / 0x100_0000 == a && n / 0x1_0000 % 0x100 == b && n / 0x100 % 0x100 == c && n % 0x100 == d
  {
    var n := a * 0x100_0000 + b * 0x1_0000 + c * 0x100 + d;
    assert n / 0x1_0000 == a * 0x100 + b;
    assert n / 0x100 == a * 0x1_0000 + b * 0x100 + c;
  }

  lemma PutUint32OfUint32(b: Bytes)
    requires |b| == 4
    ensures Uint32(b) < 0x1_0000_0000 && PutUint32(Uint32(b)) == b
  {
    BytesOf(b[0] as nat, b[1] as nat, b[2] as nat, b[3] as nat);
  }

  predicate Sendable(payload: Bytes) {
    1 <= |payload| <= MAX_FRAME_BYTES
  }

  predicate AllSendable(payloads: seq<Bytes>) {
    forall i | 0 <= i < |payloads| :: Sendable(payloads[i])
  }

  function Frame(payload: Bytes): Bytes
    requires |payload| <= MAX_FRAME_BYTES
  {
    PutUint32(|payload|) + payload
  }

  function EncodeAll(payloads: seq<Bytes>): Bytes
    requires AllSendable(payloads)
  {
    if payloads == [] then []
    else
      assert Sendable(payloads[0]);
      Frame(payloads[0]) + EncodeAll(payloads[1..])
  }

  // ---------------------------------------------------------------------
  // What a reader makes of it
  // ---------------------------------------------------------------------

  /** The first frame of a stream, with what follows it. */
  function Decode(stream: Bytes): Result<(Bytes, Bytes), FrameError> {
    if |stream| < 4 then Failure(Truncated)
    else
      var size := Uint32(stream[..4]);
      if size == 0 || size > MAX_FRAME_BYTES then Failure(InvalidLength)
      else if |stream| < 4 + size then Failure(Truncated)
      else Success((stream[4..4 + size], stream[4 + size..]))
  }

  /** The frames of a stream up to the first failure, and what is left there. */
  function DecodeAll(stream: Bytes): (seq<Bytes>, Bytes)
    decreases |stream|
  {
    var first := Decode(stream);
    if first.Failure? then ([], stream)
    else
      var (payloads, rest) := DecodeAll(first.value.1);
      ([first.value.0] + payloads, rest)
  }

  /** A decoded frame is exactly a sendable frame at the head of the stream, and conversely. */
  lemma DecodeInvertsFrame(stream: Bytes, payload: Bytes, rest: Bytes)
    ensures Decode(stream) == Success((payload, rest)) <==> Sendable(payload) && stream == Frame(payload) + rest
  {
    if Sendable(payload) && stream == Frame(payload) + rest {
      assert stream[..4] == PutUint32(|payload|);
      assert stream[4..4 + |payload|] == payload;
      assert stream[4 + |payload|..] == rest;
    }
    if Decode(stream) == Success((payload, rest)) {
      PutUint32OfUint32(stream[..4]);
      assert stream == stream[..4] + stream[4..4 + |payload|] + stream[4 + |payload|..];
    }
  }

  /** What a stream's first bytes are refused for; the length is announced with its highest byte first. */
  lemma DecodeRefuses(stream: Bytes)
    requires |stream| >= 4
    ensures var size := stream[3] as nat + 256 * (stream[2] as nat + 256 * (stream[1] as nat + 256 * stream[0] as nat));
            && (Decode(stream) == Failure(InvalidLength) <==> size == 0 || size > 2_097_152)
            && (Decode(stream) == Failure(Truncated) <==> 1 <= size <= 2_097_152 && |stream| - 4 < size)
            && (Decode(stream).Failure? ==> Decode(stream).error in {InvalidLength, Truncated})
            && (Decode(stream).Success? ==>
                  Decode(stream).value.0 + Decode(stream).value.1 == stream[4..] && |Decode(stream).value.0| == size)
  {
    assert stream[..4][0] == stream[0] && stream[..4][3] == stream[3];
    if Decode(stream).Success? {
      var size := Uint32(stream[..4]);
      assert stream[4..4 + size] + stream[4 + size..] == stream[4..];
    }
  }

  lemma DecodeAllStep(payload: Bytes, rest: Bytes)
    requires Sendable(payload)
    ensures DecodeAll(Frame(payload) + rest) == ([payload] + DecodeAll(rest).0, DecodeAll(rest).1)
  {
    DecodeInvertsFrame(Frame(payload) + rest, payload, rest);
  }

  /** Decoding the written stream gives back the payloads, with nothing but later bytes left over. */
  lemma {:induction false} RoundTrip(payloads: seq<Bytes>, unfinished: Bytes)
    requires AllSendable(payloads)
    requires Decode(unfinished).Failure?
    ensures DecodeAll(EncodeAll(payloads) + unfinished) == (payloads, unfinished)
  {
    if payloads == [] {
      assert EncodeAll(payloads) + unfinished == unfinished;
    } else {
      assert Sendable(payloads[0]);
      var rest := EncodeAll(payloads[1..]) + unfinished;
      assert EncodeAll(payloads) + unfinished == Frame(payloads[0]) + rest;
      DecodeAllStep(payloads[0], rest);
      RoundTrip(payloads[1..], unfinished);
      assert [payloads[0]] + payloads[1..] == payloads;
    }
  }

  /** A frame cut anywhere is recognised as unfinished, never as another frame. */
  lemma CutFrameIsTruncated(payload: Bytes, cut: nat)
    requires Sendable(payload) && cut < |Frame(payload)|
    ensures Decode(Frame(payload)[..cut]) == Failure(Truncated)
  {
    if 4 <= cut {
      assert Frame(payload)[..cut][..4] == PutUint32(|payload|);
    }
  }

  // ---------------------------------------------------------------------
  // Writing in pieces
  // ---------------------------------------------------------------------

  /** What the stream does with one write: how much it takes at most, and whether it also reports an error. */
  datatype Turn = Turn(taken: nat, fails: bool) {
    /** The write makes progress. */
    predicate Good() {
      !fails && taken > 0
    }
  }

  /** Every turn from `first` up to `end` makes progress. */
  predicate AllGood(turns: nat -> Turn, first: nat, end: nat) {
    forall k | first <= k < end :: turns(k).Good()
  }

  /** A stream that takes any part of what it is offered, turn by turn. */
  class Writer {
    const turns: nat -> Turn
    var turn: nat
    var accepted: Bytes

    constructor (turns: nat -> Turn)
      ensures this.turns == turns && turn == 0 && accepted == []
    {
      this.turns, turn, accepted := turns, 0, [];
    }

    method Write(payload: Bytes) returns (written: nat, failed: bool)
      modifies this
      ensures turn == old(turn) + 1
      ensures var now := turns(old(turn));
              && written == (if now.taken <= |payload| then now.taken else |payload|)
              && failed == now.fails
              && accepted == old(accepted) + payload[..written]
    {
      var now := turns(turn);
      written := if now.taken <= |payload| then now.taken else |payload|;
      failed := now.fails;
      accepted := accepted + payload[..written];
      turn := turn + 1;
    }

    /** How the turns since `first` ended: all good, or all but the last. */
    predicate EndedWith(first: nat, outcome: Option<FrameError>)
      reads this
    {
      match outcome
      case None => first <= turn && AllGood(turns, first, turn)
      case Some(error) =>
        && first < turn && AllGood(turns, first, turn - 1) && !turns(turn - 1).Good()
        && error == if turns(turn - 1).fails then WriteFailed else ShortWrite
    }
  }

  /**
   Every pattern of short writes that make progress gets every byte out, in order, and no other does:
   the first turn that fails or takes nothing is reported, with a prefix of the bytes out.
   */
  method WriteAll(writer: Writer, payload: Bytes) returns (outcome: Option<FrameError>)
    modifies writer
    ensures writer.EndedWith(old(writer.turn), outcome)
    ensures writer.turn <= old(writer.turn) + |payload|
    ensures outcome == None ==> writer.accepted == old(writer.accepted) + payload
    ensures old(writer.accepted) <= writer.accepted <= old(writer.accepted) + payload
  {
    var remaining := payload;
    ghost var sent: Bytes := [];
    while |remaining| > 0
      invariant payload == sent + remaining
      invariant writer.accepted == old(writer.accepted) + sent
      invariant writer.EndedWith(old(writer.turn), None) && writer.turn - old(writer.turn) <= |sent|
      decreases |remaining|
    {
      var written, failed := writer.Write(remaining);
      sent := sent + remaining[..written];
      assert payload == sent + remaining[written..];
      if failed {
        return Some(WriteFailed);
      }
      if written == 0 {
        return Some(ShortWrite);
      }
      remaining := remaining[written..];
    }
    return None;
  }

  method WriteFrame(writer: Writer, payload: Bytes) returns (outcome: Option<FrameError>)
    modifies writer
    ensures |payload| > MAX_FRAME_BYTES ==>
              outcome == Some(TooLarge) && writer.accepted == old(writer.accepted) && writer.turn == old(writer.turn)
    ensures |payload| <= MAX_FRAME_BYTES ==>
              && writer.EndedWith(old(writer.turn), outcome)
              && writer.turn <= old(writer.turn) + |Frame(payload)|
              && (outcome == None ==> writer.accepted == old(writer.accepted) + Frame(payload))
              && old(writer.accepted) <= writer.accepted <= old(writer.accepted) + Frame(payload)
  {
    if |payload| > MAX_FRAME_BYTES {
      return Some(TooLarge);
    }
    var length := PutUint32(|payload|);
    ghost var before := writer.accepted;
    outcome := WriteAll(writer, length);
    assert before + length <= before + Frame(payload);
    if outcome.Some? {
      return;
    }
    outcome := WriteAll(writer, payload);
    assert before + length + payload == before + Frame(payload);
  }

  // ---------------------------------------------------------------------
  // Reading in pieces
  // ---------------------------------------------------------------------

  class Reader {
    var incoming: Bytes

    constructor (stream: Bytes)
      ensures incoming == stream
    {
      incoming := stream;
    }

    /** Some non-empty part of what is next, at most `max` bytes; nothing only at the end. */
    method Read(max: nat) returns (chunk: Bytes)
      requires 0 < max
      modifies this
      ensures |chunk| <= max && old(incoming) == chunk + incoming
      ensures chunk == [] ==> old(incoming) == []
    {
      if incoming == [] {
        return [];
      }
      var n: nat :| 0 < n <= max && n <= |incoming|;
      chunk := incoming[..n];
      incoming := incoming[n..];
    }
  }

  /** io.ReadFull, and the loop of receive_exact. */
  method ReadFull(reader: Reader, size: nat) returns (outcome: Result<Bytes, FrameError>)
    modifies reader
    ensures size <= |old(reader.incoming)| ==>
              outcome == Success(old(reader.incoming)[..size]) && reader.incoming == old(reader.incoming)[size..]
    ensures size > |old(reader.incoming)| ==> outcome == Failure(Truncated) && reader.incoming == []
  {
    var output: Bytes := [];
    while |output| < size
      invariant |output| <= size
      invariant old(reader.incoming) == output + reader.incoming
      decreases size - |output|
    {
      var chunk := reader.Read(size - |output|);
      if chunk == [] {
        return Failure(Truncated);
      }
      output := output + chunk;
    }
    return Success(output);
  }

  lemma BodyOf(stream: Bytes, size: nat)
    requires 4 + size <= |stream|
    ensures stream[4..][..size] == stream[4..4 + size] && stream[4..][size..] == stream[4 + size..]
  {
  }

  /** The frame that a reader returns does not depend on how its bytes arrive. */
  method ReadFrame(reader: Reader) returns (outcome: Result<Bytes, FrameError>)
    modifies reader
    ensures match Decode(old(reader.incoming))
            case Success((payload, rest)) => outcome == Success(payload) && reader.incoming == rest
            case Failure(error) => outcome == Failure(error)
  {
    var length := ReadFull(reader, 4);
    if length.Failure? {
      return length;
    }
    var size := Uint32(length.value);
    if size == 0 || size > MAX_FRAME_BYTES {
      return Failure(InvalidLength);
    }
    if size <= |reader.incoming| {
      BodyOf(old(reader.incoming), size);
    }
    outcome := ReadFull(reader, size);
  }

  // ---------------------------------------------------------------------
  // The Python side
  // ---------------------------------------------------------------------

  /** receive_exact(4), unpack, receive_exact(size): an empty frame passes here. */
  function PythonDecode(stream: Bytes): Result<(Bytes, Bytes), FrameError> {
    if |stream| < 4 then Failure(Truncated)
    else
      var size := Uint32(stream[..4]);
      if size > MAX_FRAME_BYTES then Failure(InvalidLength)
      else if |stream| < 4 + size then Failure(Truncated)
      else Success((stream[4..4 + size], stream[4 + size..]))
  }

  /** The two readers agree on a stream exactly when it does not announce an empty frame. */
  lemma ReadersAgree(stream: Bytes)
    ensures PythonDecode(stream) == Decode(stream) <==> !(|stream| >= 4 && stream[..4] == [0, 0, 0, 0])
  {
    if |stream| >= 4 {
      PutUint32OfUint32(stream[..4]);
      assert Uint32([0, 0, 0, 0]) == 0;
    }
  }

  /** The frames that repeated receives get from a stream up to the first failure, and what is left there. */
  function PythonDecodeAll(stream: Bytes): (seq<Bytes>, Bytes)
    decreases |stream|
  {
    var first := PythonDecode(stream);
    if first.Failure? then ([], stream)
    else
      var (payloads, rest) := PythonDecodeAll(first.value.1);
      ([first.value.0] + payloads, rest)
  }

  /** A frame that can be sent heads the stream for both readers alike. */
  lemma PythonDecodesFrame(payload: Bytes, rest: Bytes)
    requires Sendable(payload)
    ensures PythonDecode(Frame(payload) + rest) == Success((payload, rest))
  {
    var stream := Frame(payload) + rest;
    DecodeInvertsFrame(stream, payload, rest);
    ReadersAgree(stream);
    assert stream[..4] == PutUint32(|payload|);
  }

  /** The Python reader decodes the written stream to the same payloads, with nothing but later bytes left over. */
  lemma {:induction false} PythonRoundTrip(payloads: seq<Bytes>, unfinished: Bytes)
    requires AllSendable(payloads)
    requires PythonDecode(unfinished).Failure?
    ensures PythonDecodeAll(EncodeAll(payloads) + unfinished) == (payloads, unfinished)
  {
    if payloads == [] {
      assert EncodeAll(payloads) + unfinished == unfinished;
    } else {
      assert Sendable(payloads[0]);
      var rest := EncodeAll(payloads[1..]) + unfinished;
      assert EncodeAll(payloads) + unfinished == Frame(payloads[0]) + rest;
      PythonDecodesFrame(payloads[0], rest);
      PythonRoundTrip(payloads[1..], unfinished);
      assert [payloads[0]] + payloads[1..] == payloads;
    }
  }

  method ReceiveExact(reader: Reader, size: nat) returns (outcome: Result<Bytes, FrameError>)
    modifies reader
    ensures size > MAX_FRAME_BYTES ==> outcome == Failure(InvalidLength) && reader.incoming == old(reader.incoming)
    ensures size <= MAX_FRAME_BYTES && size <= |old(reader.incoming)| ==>
              outcome == Success(old(reader.incoming)[..size]) && reader.incoming == old(reader.incoming)[size..]
    ensures size <= MAX_FRAME_BYTES && size > |old(reader.incoming)| ==> outcome == Failure(Truncated)
  {
    if size > MAX_FRAME_BYTES {
      return Failure(InvalidLength);
    }
    outcome := ReadFull(reader, size);
  }

  method ReceiveFrame(reader: Reader) returns (outcome: Result<Bytes, FrameError>)
    modifies reader
    ensures match PythonDecode(old(reader.incoming))
            case Success((payload, rest)) => outcome == Success(payload) && reader.incoming == rest
            case Failure(error) => outcome == Failure(error)
  {
    var length := ReceiveExact(reader, 4);
    if length.Failure? {
      return length;
    }
    var size := Uint32(length.value);
    if size <= |reader.incoming| {
      BodyOf(old(reader.incoming), size);
    }
    outcome := ReceiveExact(reader, size);
  }

  // ---------------------------------------------------------------------
  // Whole conversations
  // ---------------------------------------------------------------------

  /** Writes the frames one after the other: all of them exactly when every turn used makes progress. */
  method SendAll(turns: nat -> Turn, payloads: seq<Bytes>) returns (complete: bool, stream: Bytes, used: nat)
    requires AllSendable(payloads)
    ensures complete <==> AllGood(turns, 0, used)
    ensures used <= |EncodeAll(payloads)|
    ensures complete ==> stream == EncodeAll(payloads)
  {
    var writer := new Writer(turns);
    for k := 0 to |payloads|
      invariant fresh(writer) && writer.turns == turns && AllGood(turns, 0, writer.turn)
      invariant writer.accepted == EncodeAll(payloads[..k]) && writer.turn <= |writer.accepted|
    {
      EncodeSnoc(payloads[..k], payloads[k]);
      assert payloads[..k] + [payloads[k]] == payloads[..k + 1];
      EncodeGrows(payloads, k + 1);
      var outcome := WriteFrame(writer, payloads[k]);
      if outcome.Some? {
        return false, writer.accepted, writer.turn;
      }
    }
    assert payloads[..|payloads|] == payloads;
    return true, writer.accepted, writer.turn;
  }

  lemma {:induction false} EncodeGrows(payloads: seq<Bytes>, k: nat)
    requires AllSendable(payloads) && k <= |payloads|
    ensures |EncodeAll(payloads[..k])| <= |EncodeAll(payloads)|
    decreases |payloads| - k
  {
    if k < |payloads| {
      EncodeSnoc(payloads[..k], payloads[k]);
      assert payloads[..k] + [payloads[k]] == payloads[..k + 1];
      EncodeGrows(payloads, k + 1);
    } else {
      assert payloads[..k] == payloads;
    }
  }

  /**
   Frames written through any pattern of short writes that make progress, then read through partial
   reads, come out as they went in, and the stream is left empty.
   */
  method Relay(turns: nat -> Turn, payloads: seq<Bytes>)
    returns (complete: bool, received: seq<Bytes>, left: Bytes, used: nat)
    requires AllSendable(payloads)
    ensures complete <==> AllGood(turns, 0, used)
    ensures used <= |EncodeAll(payloads)|
    ensures complete ==> received == payloads && left == []
  {
    var stream;
    complete, stream, used := SendAll(turns, payloads);
    received := [];
    if !complete {
      return false, [], stream, used;
    }
    var reader := new Reader(stream);
    for k := 0 to |payloads|
      invariant received == payloads[..k]
      invariant reader.incoming == EncodeAll(payloads[k..])
    {
      assert Sendable(payloads[k]);
      assert payloads[k..][1..] == payloads[k + 1..];
      DecodeInvertsFrame(reader.incoming, payloads[k], EncodeAll(payloads[k + 1..]));
      var frame := ReadFrame(reader);
      received := received + [frame.value];
    }
    left := reader.incoming;
  }

  /** The same conversation with the Python reader at its end. */
  method RelayToPython(turns: nat -> Turn, payloads: seq<Bytes>)
    returns (complete: bool, received: seq<Bytes>, left: Bytes, used: nat)
    requires AllSendable(payloads)
    ensures complete <==> AllGood(turns, 0, used)
    ensures used <= |EncodeAll(payloads)|
    ensures complete ==> received == payloads && left == []
  {
    var stream;
    complete, stream, used := SendAll(turns, payloads);
    received := [];
    if !complete {
      return false, [], stream, used;
    }
    var reader := new Reader(stream);
    for k := 0 to |payloads|
      invariant received == payloads[..k]
      invariant reader.incoming == EncodeAll(payloads[k..])
    {
      assert Sendable(payloads[k]);
      assert payloads[k..][1..] == payloads[k + 1..];
      PythonDecodesFrame(payloads[k], EncodeAll(payloads[k + 1..]));
      var frame := ReceiveFrame(reader);
      received := received + [frame.value];
    }
    left := reader.incoming;
  }

  lemma {:induction false} EncodeSnoc(payloads: seq<Bytes>, payload: Bytes)
    requires AllSendable(payloads) && Sendable(payload)
    ensures EncodeAll(payloads + [payload]) == EncodeAll(payloads) + Frame(payload)
  {
    if payloads == [] {
      assert payloads + [payload] == [payload];
      assert EncodeAll([payload]) == Frame(payload) + EncodeAll([]);
    } else {
      assert (payloads + [payload])[1..] == payloads[1..] + [payload];
      EncodeSnoc(payloads[1..], payload);
    }
  }
}
