/** Length-prefixed frames over a byte stream that arrives in arbitrary pieces
    (agentic-browser-host/src/lib.rs:49-93). The JSON encoding of a message is a parameter. */
module BrowserFraming {
  import opened Text

  newtype byte = x: int | 0 <= x < 256

  const MAX_PAYLOAD_SIZE := 8 * 1024 * 1024
  const U32_MAX := 0xFFFF_FFFF

  datatype Endian = Little | Big

  datatype FrameError = Io | TooLarge(size: nat) | Json

  // ---------------------------------------------------------------- frames as values

  /** A 32-bit length in the byte order of the machine. */
  function LengthBytes(n: nat, endian: Endian): (bytes: seq<byte>)
    requires n <= U32_MAX
    ensures |bytes| == 4
  {
    var low := [(n % 256) as byte, (n / 0x100 % 256) as byte, (n / 0x1_0000 % 256) as byte, (n / 0x100_0000) as byte];
    if endian.Little? then low else [low[3], low[2], low[1], low[0]]
  }

  function LengthOf(bytes: seq<byte>, endian: Endian): nat
    requires |bytes| == 4
  {
    var low := if endian.Little? then bytes else [bytes[3], bytes[2], bytes[1], bytes[0]];
    low[0] as nat + low[1] as nat * 0x100 + low[2] as nat * 0x1_0000 + low[3] as nat * 0x100_0000
  }

  lemma LengthRoundTrip(n: nat, endian: Endian)
    requires n <= U32_MAX
    ensures LengthOf(LengthBytes(n, endian), endian) == n
  {
    assert n == n % 256 + n / 256 * 256;
    assert n / 0x100 == n / 0x100 % 256 + n / 0x100 / 256 * 256;
    assert n / 0x1_0000 == n / 0x1_0000 % 256 + n / 0x1_0000 / 256 * 256;
    assert n / 0x100 / 256 == n / 0x1_0000 && n / 0x1_0000 / 256 == n / 0x100_0000;
  }

  function FrameOf(payload: seq<byte>, endian: Endian): seq<byte>
    requires |payload| <= U32_MAX
  {
    LengthBytes(|payload|, endian) + payload
  }

  /** What one read finds at the head of the data: a payload, the end, or an oversized length. */
  datatype Found = Payload(bytes: seq<byte>, rest: seq<byte>) | EndOfStream | Oversized(size: nat)

  function FirstFrame(data: seq<byte>, endian: Endian): Found {
    if |data| < 4 then EndOfStream
    else
      var size := LengthOf(data[..4], endian);
      if size > MAX_PAYLOAD_SIZE then Oversized(size)
      else if |data| < 4 + size then EndOfStream
      else Payload(data[4..4 + size], data[4 + size..])
  }

  datatype Frames = Frames(payloads: seq<seq<byte>>, oversized: Option<nat>)

  /** All payloads up to the end of the stream or the first oversized length. */
  function AllFrames(data: seq<byte>, endian: Endian): Frames
    decreases |data|
  {
    match FirstFrame(data, endian)
    case EndOfStream => Frames([], None)
    case Oversized(size) => Frames([], Some(size))
    case Payload(bytes, rest) =>
      var more := AllFrames(rest, endian);
      more.(payloads := [bytes] + more.payloads)
  }

  // ---------------------------------------------------------------- the stream

  /** What the next read call of the stream does. */
  datatype Readiness = Give(most: nat) | Interrupted | Broken

  datatype ReadOutcome = Got(count: nat) | WasInterrupted | WasBroken

  /** A byte source that hands out what it has in pieces of its own choosing. */
  class Stream {
    var data: seq<byte>
    var plan: seq<Readiness>

    constructor (data: seq<byte>, plan: seq<Readiness>)
      ensures this.data == data && this.plan == plan
    {
      this.data, this.plan := data, plan;
    }

    /** Fills some of the buffer from `from` on; 0 only at the end of the data. */
    method Read(buffer: array<byte>, from: nat) returns (r: ReadOutcome)
      requires from < buffer.Length
      modifies this, buffer
      ensures r.Got? ==>
        && r.count <= buffer.Length - from && r.count <= |old(data)| && (r.count == 0 ==> old(data) == [])
        && data == old(data)[r.count..]
        && buffer[..] == old(buffer[..from]) + old(data)[..r.count] + old(buffer[from..])[r.count..]
      ensures !r.Got? ==> data == old(data) && buffer[..] == old(buffer[..]) && |plan| < |old(plan)|
      ensures r.WasBroken? ==> Broken in old(plan)
      ensures Broken in plan ==> Broken in old(plan)
      ensures |plan| <= |old(plan)|
    {
      var most := Min(buffer.Length - from, |data|);
      if plan != [] {
        var next := plan[0];
        plan := plan[1..];
        if next.Interrupted? {
          return WasInterrupted;
        }
        if next.Broken? {
          return WasBroken;
        }
        if most > 0 {
          most := Min(most, if next.most == 0 then 1 else next.most);
        }
      }
      CopyInto(buffer, from, data[..most]);
      data := data[most..];
      return Got(most);
    }
  }

  method CopyInto(buffer: array<byte>, from: nat, bytes: seq<byte>)
    requires from + |bytes| <= buffer.Length
    modifies buffer
    ensures buffer[..] == old(buffer[..from]) + bytes + old(buffer[from..])[|bytes|..]
  {
    for i := 0 to |bytes|
      invariant forall j :: 0 <= j < buffer.Length ==>
        buffer[j] == if from <= j < from + i then bytes[j - from] else old(buffer[..])[j]
    {
      buffer[from + i] := bytes[i];
    }
  }

  /** Fills the whole buffer, or finds the end of the data first; reads of any size and
      interruptions make no difference. */
  method ReadExactOrEof(stream: Stream, buffer: array<byte>) returns (r: Result<bool, FrameError>)
    modifies stream, buffer
    ensures r.Err? ==> r.error == Io && Broken in old(stream.plan)
    ensures Broken in stream.plan ==> Broken in old(stream.plan)
    ensures r.Ok? ==> r.value == (|old(stream.data)| >= buffer.Length)
    ensures r == Ok(true) ==>
      buffer[..] == old(stream.data)[..buffer.Length] && stream.data == old(stream.data)[buffer.Length..]
  {
    var filled: nat := 0;
    while filled < buffer.Length
      invariant filled <= buffer.Length && filled <= |old(stream.data)|
      invariant buffer[..filled] == old(stream.data)[..filled]
      invariant stream.data == old(stream.data)[filled..]
      invariant Broken in stream.plan ==> Broken in old(stream.plan)
      decreases buffer.Length - filled + |stream.plan|
    {
      ghost var before := buffer[..];
      ghost var data := stream.data;
      var outcome := stream.Read(buffer, filled);
      if outcome.WasBroken? {
        return Err(Io);
      }
      if outcome.Got? {
        if outcome.count == 0 {
          return Ok(false);
        }
        assert buffer[..filled + outcome.count] == before[..filled] + data[..outcome.count];
        assert old(stream.data)[..filled + outcome.count] == old(stream.data)[..filled] + data[..outcome.count];
        filled := filled + outcome.count;
      }
    }
    return Ok(true);
  }

  lemma Slices<T>(s: seq<T>, i: nat, n: nat)
    requires i <= |s|
    ensures i + n <= |s| ==> s[i..][..n] == s[i..i + n] && s[i..][n..] == s[i + n..]
  {
  }

  /** What a payload says, if it is JSON. */
  type Decoder = seq<byte> -> Option<string>

  /** One frame, decoded. */
  method ReadFrame(stream: Stream, endian: Endian, decode: Decoder) returns (r: Result<Option<string>, FrameError>)
    modifies stream
    ensures r == Err(Io) ==> Broken in old(stream.plan)
    ensures Broken in stream.plan ==> Broken in old(stream.plan)
    ensures r != Err(Io) ==>
      match FirstFrame(old(stream.data), endian)
      case EndOfStream => r == Ok(None)
      case Oversized(size) => r == Err(TooLarge(size))
      case Payload(bytes, rest) =>
        stream.data == rest && r == if decode(bytes).Some? then Ok(decode(bytes)) else Err(Json)
  {
    var header := new byte[4];
    var filled := ReadExactOrEof(stream, header);
    if filled.Err? {
      return Err(filled.error);
    }
    if !filled.value {
      return Ok(None);
    }
    var size := LengthOf(header[..], endian);
    Slices(old(stream.data), 4, size);
    if size > MAX_PAYLOAD_SIZE {
      return Err(TooLarge(size));
    }
    var payload := new byte[size];
    filled := ReadExactOrEof(stream, payload);
    if filled.Err? {
      return Err(filled.error);
    }
    if !filled.value {
      return Ok(None);
    }
    var message := decode(payload[..]);
    return if message.Some? then Ok(message) else Err(Json);
  }

  /** The messages up to the end of the stream or the first error. */
  datatype Messages = Messages(messages: seq<string>, error: Option<FrameError>)

  function AllMessages(data: seq<byte>, endian: Endian, decode: Decoder): Messages
    decreases |data|
  {
    match FirstFrame(data, endian)
    case EndOfStream => Messages([], None)
    case Oversized(size) => Messages([], Some(TooLarge(size)))
    case Payload(bytes, rest) =>
      if decode(bytes).None? then Messages([], Some(Json))
      else
        var more := AllMessages(rest, endian, decode);
        more.(messages := [decode(bytes).value] + more.messages)
  }

  function Behind(done: seq<string>, all: Messages): Messages {
    all.(messages := done + all.messages)
  }

  lemma AllMessagesUnfold(data: seq<byte>, endian: Endian, decode: Decoder, done: seq<string>)
    ensures Behind(done, AllMessages(data, endian, decode)) == (
      match FirstFrame(data, endian)
      case EndOfStream => Messages(done, None)
      case Oversized(size) => Messages(done, Some(TooLarge(size)))
      case Payload(bytes, rest) =>
        if decode(bytes).None? then Messages(done, Some(Json))
        else Behind(done + [decode(bytes).value], AllMessages(rest, endian, decode)))
  {
    hide FirstFrame;
    var found := FirstFrame(data, endian);
    if found.Payload? && decode(found.bytes).Some? {
      Associative(done, [decode(found.bytes).value], AllMessages(found.rest, endian, decode).messages);
    }
  }

  lemma PayloadShrinks(data: seq<byte>, endian: Endian)
    ensures FirstFrame(data, endian).Payload? ==> |FirstFrame(data, endian).rest| < |data|
  {
  }

  /** The read loop of a client: all messages of the stream in order, or, where a read fails, those
      before it. */
  method ReadFrames(stream: Stream, endian: Endian, decode: Decoder)
    returns (messages: seq<string>, error: Option<FrameError>)
    modifies stream
    ensures var all := AllMessages(old(stream.data), endian, decode);
      if error == Some(Io) then messages <= all.messages && Broken in old(stream.plan)
      else all == Messages(messages, error)
  {
    hide FirstFrame, AllMessages;
    messages := [];
    while true
      invariant Broken in stream.plan ==> Broken in old(stream.plan)
      invariant Behind(messages, AllMessages(stream.data, endian, decode))
                == AllMessages(old(stream.data), endian, decode)
      decreases |stream.data|
    {
      AllMessagesUnfold(stream.data, endian, decode, messages);
      PayloadShrinks(stream.data, endian);
      var r := ReadFrame(stream, endian, decode);
      if r.Err? {
        return messages, Some(r.error);
      }
      if r.value.None? {
        return messages, None;
      }
      messages := messages + [r.value.value];
    }
  }

  class Sink {
    var bytes: seq<byte>

    constructor ()
      ensures bytes == []
    {
      bytes := [];
    }
  }

  /** Lengths beyond 32 bits are refused, before anything is written. */
  method WriteFrame(sink: Sink, message: string, endian: Endian, encode: string -> seq<byte>)
    returns (error: Option<FrameError>)
    modifies sink
    ensures var payload := encode(message);
      if |payload| > U32_MAX then error == Some(Io) && sink.bytes == old(sink.bytes)
      else error == None && sink.bytes == old(sink.bytes) + FrameOf(payload, endian)
  {
    var payload := encode(message);
    if |payload| > U32_MAX {
      return Some(Io);
    }
    sink.bytes := sink.bytes + LengthBytes(|payload|, endian);
    sink.bytes := sink.bytes + payload;
    Associative(old(sink.bytes), LengthBytes(|payload|, endian), payload);
    return None;
  }

  // ---------------------------------------------------------------- round trip

  predicate AllWithin(payloads: seq<seq<byte>>, size: nat) {
    forall i :: 0 <= i < |payloads| ==> |payloads[i]| <= size
  }

  function WrittenAll(payloads: seq<seq<byte>>, endian: Endian): seq<byte>
    requires AllWithin(payloads, U32_MAX)
  {
    if payloads == [] then [] else FrameOf(payloads[0], endian) + WrittenAll(payloads[1..], endian)
  }

  lemma FirstOfWritten(payload: seq<byte>, rest: seq<byte>, endian: Endian)
    requires |payload| <= U32_MAX
    ensures FirstFrame(FrameOf(payload, endian) + rest, endian)
            == if |payload| > MAX_PAYLOAD_SIZE then Oversized(|payload|) else Payload(payload, rest)
  {
    var data := FrameOf(payload, endian) + rest;
    LengthRoundTrip(|payload|, endian);
    assert data[..4] == LengthBytes(|payload|, endian);
    hide LengthBytes, LengthOf;
    assert data[4..4 + |payload|] == payload && data[4 + |payload|..] == rest;
  }

  /** A frame on the wire: four bytes that give the length, least significant first or last as the machine
      has it, then the payload. It is read back up to 8 MiB and refused beyond. */
  lemma FrameLayout(payload: seq<byte>, rest: seq<byte>, endian: Endian)
    requires |payload| <= 0xFFFF_FFFF
    ensures var frame := FrameOf(payload, endian);
      && |frame| == 4 + |payload| && frame[4..] == payload
      && |payload| == (
        if endian.Little? then
          frame[0] as int + frame[1] as int * 256 + frame[2] as int * 65536 + frame[3] as int * 16777216
        else frame[3] as int + frame[2] as int * 256 + frame[1] as int * 65536 + frame[0] as int * 16777216)
      && FirstFrame(frame + rest, endian)
         == if |payload| > 8388608 then Oversized(|payload|) else Payload(payload, rest)
  {
    LengthRoundTrip(|payload|, endian);
    FirstOfWritten(payload, rest, endian);
    hide FirstFrame, LengthBytes;
  }

  /** Reading what was written gives the payloads, up to the first beyond 8 MiB: a write takes
      it, and the reader then refuses the stream. */
  lemma {:induction false} WriteRead(payloads: seq<seq<byte>>, endian: Endian)
    requires AllWithin(payloads, U32_MAX)
    ensures AllFrames(WrittenAll(payloads, endian), endian) == UpToOversized(payloads)
  {
    if payloads != [] {
      FirstOfWritten(payloads[0], WrittenAll(payloads[1..], endian), endian);
      hide FirstFrame, FrameOf;
      WriteRead(payloads[1..], endian);
    }
  }

  function UpToOversized(payloads: seq<seq<byte>>): Frames {
    if payloads == [] then Frames([], None)
    else if |payloads[0]| > MAX_PAYLOAD_SIZE then Frames([], Some(|payloads[0]|))
    else
      var more := UpToOversized(payloads[1..]);
      more.(payloads := [payloads[0]] + more.payloads)
  }

  lemma {:induction false} NoneOversized(payloads: seq<seq<byte>>)
    requires AllWithin(payloads, MAX_PAYLOAD_SIZE)
    ensures UpToOversized(payloads) == Frames(payloads, None)
  {
    if payloads != [] {
      NoneOversized(payloads[1..]);
      assert [payloads[0]] + payloads[1..] == payloads;
    }
  }

  /** Payloads of at most 8 MiB come back exactly, then the end of the stream. */
  lemma FramesRoundTrip(payloads: seq<seq<byte>>, endian: Endian)
    requires AllWithin(payloads, MAX_PAYLOAD_SIZE)
    ensures AllFrames(WrittenAll(payloads, endian), endian) == Frames(payloads, None)
  {
    WriteRead(payloads, endian);
    NoneOversized(payloads);
  }

  function Encoded(messages: seq<string>, encode: string -> seq<byte>): seq<seq<byte>> {
    if messages == [] then [] else [encode(messages[0])] + Encoded(messages[1..], encode)
  }

  /** The payloads' messages up to the first that is not JSON. */
  function DecodedAll(frames: Frames, decode: Decoder): Messages
    decreases |frames.payloads|
  {
    if frames.payloads == [] then
      Messages([], if frames.oversized.Some? then Some(TooLarge(frames.oversized.value)) else None)
    else if decode(frames.payloads[0]).None? then Messages([], Some(Json))
    else
      var more := DecodedAll(frames.(payloads := frames.payloads[1..]), decode);
      more.(messages := [decode(frames.payloads[0]).value] + more.messages)
  }

  lemma {:induction false} MessagesOfFrames(data: seq<byte>, endian: Endian, decode: Decoder)
    ensures AllMessages(data, endian, decode) == DecodedAll(AllFrames(data, endian), decode)
    decreases |data|
  {
    PayloadShrinks(data, endian);
    hide FirstFrame;
    var found := FirstFrame(data, endian);
    if found.Payload? {
      MessagesOfFrames(found.rest, endian, decode);
      var more := AllFrames(found.rest, endian);
      assert ([found.bytes] + more.payloads)[1..] == more.payloads;
      assert AllFrames(data, endian).(payloads := more.payloads) == more;
    }
  }

  lemma {:induction false} DecodedOfEncoded(messages: seq<string>, encode: string -> seq<byte>, decode: Decoder)
    requires forall i :: 0 <= i < |messages| ==> decode(encode(messages[i])) == Some(messages[i])
    ensures DecodedAll(Frames(Encoded(messages, encode), None), decode) == Messages(messages, None)
  {
    if messages != [] {
      DecodedOfEncoded(messages[1..], encode, decode);
      assert Encoded(messages, encode)[1..] == Encoded(messages[1..], encode);
      assert [messages[0]] + messages[1..] == messages;
    }
  }

  lemma {:induction false} EncodedWithin(messages: seq<string>, encode: string -> seq<byte>, size: nat)
    requires forall i :: 0 <= i < |messages| ==> |encode(messages[i])| <= size
    ensures AllWithin(Encoded(messages, encode), size)
  {
    if messages != [] {
      EncodedWithin(messages[1..], encode, size);
    }
  }

  /** Messages that encode to at most 8 MiB are read back exactly, then the end of the stream. */
  lemma MessagesRoundTrip(messages: seq<string>, endian: Endian, encode: string -> seq<byte>, decode: Decoder)
    requires forall i :: 0 <= i < |messages| ==>
      |encode(messages[i])| <= MAX_PAYLOAD_SIZE && decode(encode(messages[i])) == Some(messages[i])
    ensures AllWithin(Encoded(messages, encode), MAX_PAYLOAD_SIZE)
    ensures AllMessages(WrittenAll(Encoded(messages, encode), endian), endian, decode) == Messages(messages, None)
  {
    hide AllMessages, AllFrames, WrittenAll, DecodedAll, Encoded;
    EncodedWithin(messages, encode, MAX_PAYLOAD_SIZE);
    var payloads := Encoded(messages, encode);
    FramesRoundTrip(payloads, endian);
    MessagesOfFrames(WrittenAll(payloads, endian), endian, decode);
    DecodedOfEncoded(messages, encode, decode);
  }

  lemma {:induction false} WrittenSnoc(payloads: seq<seq<byte>>, last: seq<byte>, endian: Endian)
    requires AllWithin(payloads, U32_MAX) && |last| <= U32_MAX
    ensures AllWithin(payloads + [last], U32_MAX)
    ensures WrittenAll(payloads + [last], endian) == WrittenAll(payloads, endian) + FrameOf(last, endian)
  {
    hide FrameOf;
    if payloads == [] {
      assert payloads + [last] == [last] && [last][1..] == [];
    } else {
      assert (payloads + [last])[1..] == payloads[1..] + [last];
      WrittenSnoc(payloads[1..], last, endian);
      Associative(FrameOf(payloads[0], endian), WrittenAll(payloads[1..], endian), FrameOf(last, endian));
    }
  }

  lemma {:induction false} EncodedSnoc(messages: seq<string>, last: string, encode: string -> seq<byte>)
    ensures Encoded(messages + [last], encode) == Encoded(messages, encode) + [encode(last)]
  {
    if messages == [] {
      assert messages + [last] == [last] && [last][1..] == [];
    } else {
      assert (messages + [last])[1..] == messages[1..] + [last];
      EncodedSnoc(messages[1..], last, encode);
    }
  }

  /** Messages written one after the other and read back through a stream that fragments and
      interrupts as it likes, but does not fail: exactly these messages, then the end. */
  method WriteThenRead(messages: seq<string>, plan: seq<Readiness>, endian: Endian, encode: string -> seq<byte>,
                       decode: Decoder)
    returns (back: seq<string>, error: Option<FrameError>)
    requires Broken !in plan
    requires forall i :: 0 <= i < |messages| ==>
      |encode(messages[i])| <= MAX_PAYLOAD_SIZE && decode(encode(messages[i])) == Some(messages[i])
    ensures back == messages && error == None
  {
    hide WrittenAll, Encoded, AllMessages, FrameOf;
    var sink := new Sink();
    NothingWritten(endian, encode);
    assert messages[..|messages|] == messages;
    for i := 0 to |messages|
      invariant AllWithin(Encoded(messages[..i], encode), U32_MAX)
      invariant sink.bytes == WrittenAll(Encoded(messages[..i], encode), endian)
    {
      assert messages[..i + 1] == messages[..i] + [messages[i]];
      EncodedSnoc(messages[..i], messages[i], encode);
      WrittenSnoc(Encoded(messages[..i], encode), encode(messages[i]), endian);
      var refused := WriteFrame(sink, messages[i], endian, encode);
    }
    MessagesRoundTrip(messages, endian, encode, decode);
    var stream := new Stream(sink.bytes, plan);
    back, error := ReadFrames(stream, endian, decode);
  }

  lemma NothingWritten(endian: Endian, encode: string -> seq<byte>)
    ensures Encoded([], encode) == [] && WrittenAll([], endian) == []
  {
  }

  /** How many whole frames fit into the first `n` bytes. */
  function WholeFrames(payloads: seq<seq<byte>>, n: nat): nat
    decreases |payloads|
  {
    if payloads == [] || n < 4 + |payloads[0]| then 0 else 1 + WholeFrames(payloads[1..], n - 4 - |payloads[0]|)
  }

  lemma {:induction false} WholeFramesBound(payloads: seq<seq<byte>>, n: nat, endian: Endian)
    requires AllWithin(payloads, MAX_PAYLOAD_SIZE)
    ensures WholeFrames(payloads, n) <= |payloads|
    ensures n < |WrittenAll(payloads, endian)| ==> WholeFrames(payloads, n) < |payloads|
    decreases |payloads|
  {
    if payloads != [] && n >= 4 + |payloads[0]| {
      WholeFramesBound(payloads[1..], n - 4 - |payloads[0]|, endian);
    }
  }

  lemma CutInside(payload: seq<byte>, rest: seq<byte>, n: nat, endian: Endian)
    requires |payload| <= MAX_PAYLOAD_SIZE && n < 4 + |payload|
    ensures FirstFrame((FrameOf(payload, endian) + rest)[..n], endian) == EndOfStream
  {
    var data := FrameOf(payload, endian) + rest;
    LengthRoundTrip(|payload|, endian);
    hide LengthBytes, LengthOf;
    if n >= 4 {
      assert data[..n][..4] == LengthBytes(|payload|, endian);
    }
  }

  /** A first frame that is whole, before a cut further on. */
  lemma CutBehind(payload: seq<byte>, rest: seq<byte>, n: nat, endian: Endian)
    requires |payload| <= MAX_PAYLOAD_SIZE && 4 + |payload| <= n <= 4 + |payload| + |rest|
    ensures var data := FrameOf(payload, endian) + rest;
      n <= |data| && FirstFrame(data[..n], endian) == Payload(payload, rest[..n - 4 - |payload|])
  {
    var cut := rest[..n - 4 - |payload|];
    FrameLength(payload, endian);
    hide FirstFrame, FrameOf;
    FirstOfWritten(payload, cut, endian);
    assert (FrameOf(payload, endian) + rest)[..n] == FrameOf(payload, endian) + cut;
  }

  lemma WrittenHead(payloads: seq<seq<byte>>, endian: Endian)
    requires payloads != []
    requires AllWithin(payloads, U32_MAX)
    ensures WrittenAll(payloads, endian) == FrameOf(payloads[0], endian) + WrittenAll(payloads[1..], endian)
    ensures |WrittenAll(payloads, endian)| == 4 + |payloads[0]| + |WrittenAll(payloads[1..], endian)|
  {
    FrameLength(payloads[0], endian);
  }

  lemma AllFramesStep(data: seq<byte>, bytes: seq<byte>, rest: seq<byte>, endian: Endian, payloads: seq<seq<byte>>)
    requires FirstFrame(data, endian) == Payload(bytes, rest) && AllFrames(rest, endian) == Frames(payloads, None)
    ensures AllFrames(data, endian) == Frames([bytes] + payloads, None)
  {
    hide FirstFrame;
  }

  lemma AllFramesEnd(data: seq<byte>, endian: Endian)
    requires FirstFrame(data, endian) == EndOfStream
    ensures AllFrames(data, endian) == Frames([], None)
  {
    hide FirstFrame;
  }

  /** What the cut stream must give. */
  ghost predicate CutGives(payloads: seq<seq<byte>>, n: nat, endian: Endian)
    requires AllWithin(payloads, MAX_PAYLOAD_SIZE) && n <= |WrittenAll(payloads, endian)|
  {
    var k := WholeFrames(payloads, n);
    && k <= |payloads| && (n < |WrittenAll(payloads, endian)| ==> k < |payloads|)
    && AllFrames(WrittenAll(payloads, endian)[..n], endian) == Frames(payloads[..k], None)
  }

  lemma CutInFirst(payloads: seq<seq<byte>>, n: nat, endian: Endian)
    requires AllWithin(payloads, MAX_PAYLOAD_SIZE) && payloads != [] && n < 4 + |payloads[0]|
    requires n <= |WrittenAll(payloads, endian)|
    ensures CutGives(payloads, n, endian)
  {
    WrittenHead(payloads, endian);
    hide FirstFrame, FrameOf, WrittenAll, AllFrames;
    var rest := WrittenAll(payloads[1..], endian);
    CutInside(payloads[0], rest, n, endian);
    AllFramesEnd((FrameOf(payloads[0], endian) + rest)[..n], endian);
    assert payloads[..0] == [];
  }

  lemma CutLater(payloads: seq<seq<byte>>, n: nat, endian: Endian)
    requires AllWithin(payloads, MAX_PAYLOAD_SIZE) && payloads != [] && n >= 4 + |payloads[0]|
    requires n <= |WrittenAll(payloads, endian)|
    requires var m := n - 4 - |payloads[0]|;
      m <= |WrittenAll(payloads[1..], endian)| && CutGives(payloads[1..], m, endian)
    ensures CutGives(payloads, n, endian)
  {
    assert |payloads[0]| <= MAX_PAYLOAD_SIZE && AllWithin(payloads[1..], MAX_PAYLOAD_SIZE);
    WrittenHead(payloads, endian);
    WholeFramesBound(payloads, n, endian);
    hide FirstFrame, FrameOf, WrittenAll, AllFrames, AllWithin;
    var rest, m := WrittenAll(payloads[1..], endian), n - 4 - |payloads[0]|;
    var k := WholeFrames(payloads[1..], m);
    CutBehind(payloads[0], rest, n, endian);
    AllFramesStep((FrameOf(payloads[0], endian) + rest)[..n], payloads[0], rest[..m], endian, payloads[1..][..k]);
    TakeHead(payloads, k);
  }

  /** A cut stream gives the payloads of the whole frames before the cut, and nothing else;
      a strict prefix loses at least one. */
  lemma {:induction false} PrefixGivesPrefix(payloads: seq<seq<byte>>, n: nat, endian: Endian)
    requires AllWithin(payloads, MAX_PAYLOAD_SIZE) && n <= |WrittenAll(payloads, endian)|
    ensures CutGives(payloads, n, endian)
    decreases |payloads|
  {
    if payloads == [] {
      AllFramesEnd([], endian);
    } else {
      WrittenHead(payloads, endian);
      hide CutGives, WrittenAll, FrameOf;
      if n < 4 + |payloads[0]| {
        CutInFirst(payloads, n, endian);
      } else {
        PrefixGivesPrefix(payloads[1..], n - 4 - |payloads[0]|, endian);
        CutLater(payloads, n, endian);
      }
    }
  }

  lemma TakeHead<T>(s: seq<T>, k: nat)
    requires s != [] && k < |s|
    ensures s[..k + 1] == [s[0]] + s[1..][..k]
  {
  }

  lemma FrameLength(payload: seq<byte>, endian: Endian)
    requires |payload| <= U32_MAX
    ensures |FrameOf(payload, endian)| == 4 + |payload|
  {
  }
}
