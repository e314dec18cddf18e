/** Length-prefixed frames on a byte stream: a four-byte big-endian length, then
    that many bytes. */
module Framing {
  import opened Prelude

  /** The largest control frame that is read. */
  const MAX_CONTROL_FRAME: nat := 64 * 1024

  function BigEndian(n: u32): (b: seq<byte>)
    ensures |b| == 4
  {
    var high := n / 256;
    var higher := high / 256;
    [higher / 256, higher % 256, high % 256, n % 256]
  }

  function FromBigEndian(b: seq<byte>): u32
    requires |b| == 4
  {
    var b0: int, b1: int, b2: int, b3: int := b[0], b[1], b[2], b[3];
    ((b0 * 256 + b1) * 256 + b2) * 256 + b3
  }

  lemma LengthRoundTrip(n: u32)
    ensures FromBigEndian(BigEndian(n)) == n
  {
  }

  /** The first byte of a header counts most. */
  lemma HeadersAreBigEndian(n: u32)
    ensures var b := BigEndian(n);
            var b0: int, b1: int, b2: int, b3: int := b[0], b[1], b[2], b[3];
            b0 * 0x100_0000 + b1 * 0x1_0000 + b2 * 0x100 + b3 == n
  {
  }

  /** The length a header announces, refused when over the limit. */
  function FrameLen(header: seq<byte>, limit: nat): Result<nat, nat>
    requires |header| == 4
  {
    var len := FromBigEndian(header);
    if len > limit then Err(len) else Ok(len)
  }

  datatype FrameError = TooLarge(size: nat) | Broken | NotWritten | NotEncoded | NotDecoded

  /** What is read next: a frame, or a clean end of the stream between frames. */
  datatype Received = Message(payload: seq<byte>) | Finished

  /** One read from a stream that ends where `stream` does, and how far it got. */
  function Next(stream: seq<byte>): (Result<Received, FrameError>, nat)
  {
    if stream == [] then (Ok(Finished), 0)
    else if |stream| < 4 then (Err(Broken), |stream|)
    else match FrameLen(stream[..4], MAX_CONTROL_FRAME)
      case Err(len) => (Err(TooLarge(len)), 4)
      case Ok(len) =>
        if |stream| < 4 + len then (Err(Broken), |stream|) else (Ok(Message(stream[4..4 + len])), 4 + len)
  }

  /** Everything a reader gets before it stops, and why it stopped. */
  datatype Reading = Reading(payloads: seq<seq<byte>>, end: Result<(), FrameError>)

  function ReadAll(stream: seq<byte>): Reading
    decreases |stream|
  {
    match Next(stream)
    case (Ok(Message(payload)), used) =>
      var rest := ReadAll(stream[used..]);
      Reading([payload] + rest.payloads, rest.end)
    case (Ok(Finished), _) => Reading([], Ok(()))
    case (Err(e), _) => Reading([], Err(e))
  }

  predicate Sendable(payload: seq<byte>) {
    |payload| <= MAX_CONTROL_FRAME
  }

  function Frame(payload: seq<byte>): (f: seq<byte>)
    requires |payload| <= U32_MAX
    ensures |f| == 4 + |payload|
  {
    BigEndian(|payload|) + payload
  }

  function Wire(payloads: seq<seq<byte>>): seq<byte>
    requires forall p | p in payloads :: Sendable(p)
  {
    if payloads == [] then []
    else
      assert payloads[0] in payloads && Sendable(payloads[0]);
      Frame(payloads[0]) + Wire(payloads[1..])
  }

  lemma ReadsOneFrame(payload: seq<byte>, rest: seq<byte>)
    requires Sendable(payload)
    ensures Next(Frame(payload) + rest) == (Ok(Message(payload)), 4 + |payload|)
    ensures (Frame(payload) + rest)[4 + |payload|..] == rest
  {
    var stream := Frame(payload) + rest;
    assert stream[..4] == BigEndian(|payload|);
    LengthRoundTrip(|payload|);
    assert stream[4..4 + |payload|] == payload;
  }

  lemma FrameThenTheRest(first: seq<byte>, rest: seq<byte>)
    requires Sendable(first)
    ensures var r := ReadAll(rest); ReadAll(Frame(first) + rest) == Reading([first] + r.payloads, r.end)
  {
    ReadsOneFrame(first, rest);
  }

  /** Reading the concatenated frames gives the payloads back, then a clean end. */
  lemma {:induction false} FramesReadBack(payloads: seq<seq<byte>>)
    requires forall p | p in payloads :: Sendable(p)
    ensures ReadAll(Wire(payloads)) == Reading(payloads, Ok(()))
  {
    if payloads == [] {
    } else {
      assert payloads[0] in payloads;
      FramesReadBack(payloads[1..]);
      FrameThenTheRest(payloads[0], Wire(payloads[1..]));
      assert [payloads[0]] + payloads[1..] == payloads;
    }
  }

  /** How many whole frames lie within the first `n` bytes. */
  function WholeFrames(payloads: seq<seq<byte>>, n: nat): (k: nat)
    ensures k <= |payloads|
  {
    if payloads == [] || n < 4 + |payloads[0]| then 0
    else 1 + WholeFrames(payloads[1..], n - 4 - |payloads[0]|)
  }

  /** A stream cut anywhere gives exactly the frames that arrived whole, and then
      a clean end only where the cut falls between frames. */
  lemma {:induction false} CutStreamGivesAPrefix(payloads: seq<seq<byte>>, n: nat)
    requires forall p | p in payloads :: Sendable(p)
    requires n <= |Wire(payloads)|
    ensures var k := WholeFrames(payloads, n);
            var whole := Wire(payloads[..k]);
            && |whole| <= n
            && ReadAll(Wire(payloads)[..n]) == Reading(payloads[..k], if n == |whole| then Ok(()) else Err(Broken))
  {
    hide ReadAll, BigEndian;
    if payloads == [] {
      NothingToRead();
    } else if n < 4 + |payloads[0]| {
      assert payloads[0] in payloads;
      CutWithinAFrame(payloads[0], Wire(payloads[1..]), n);
    } else {
      assert payloads[0] in payloads;
      CutStreamGivesAPrefix(payloads[1..], n - 4 - |payloads[0]|);
      CutPastAFrame(payloads, n);
    }
  }

  lemma NothingToRead()
    ensures ReadAll([]) == Reading([], Ok(()))
  {
  }

  lemma CutPastAFrame(payloads: seq<seq<byte>>, n: nat)
    requires (forall p | p in payloads :: Sendable(p)) && payloads != []
    requires 4 + |payloads[0]| <= n <= |Wire(payloads)|
    ensures var m, k := n - 4 - |payloads[0]|, WholeFrames(payloads[1..], n - 4 - |payloads[0]|);
            var r := ReadAll(Wire(payloads[1..])[..m]);
            && ReadAll(Wire(payloads)[..n]) == Reading([payloads[0]] + r.payloads, r.end)
            && payloads[..k + 1] == [payloads[0]] + payloads[1..][..k]
            && Wire(payloads[..k + 1]) == Frame(payloads[0]) + Wire(payloads[1..][..k])
  {
    hide ReadAll, Frame;
    assert payloads[0] in payloads;
    var first, rest := payloads[0], payloads[1..];
    var m, k := n - 4 - |first|, WholeFrames(rest, n - 4 - |first|);
    assert Wire(payloads)[..n] == Frame(first) + Wire(rest)[..m];
    FrameThenTheRest(first, Wire(rest)[..m]);
    assert payloads[..k + 1] == [first] + rest[..k];
    assert payloads[..k + 1][1..] == rest[..k];
  }

  lemma CutWithinAFrame(payload: seq<byte>, rest: seq<byte>, n: nat)
    requires Sendable(payload) && n < 4 + |payload|
    ensures ReadAll((Frame(payload) + rest)[..n]) == Reading([], if n == 0 then Ok(()) else Err(Broken))
  {
    var cut := (Frame(payload) + rest)[..n];
    if n >= 4 {
      assert cut[..4] == BigEndian(|payload|);
      LengthRoundTrip(|payload|);
    }
  }

  /** A header over the limit is refused whatever follows it, even nothing: the
      four bytes of the header are all that is read. */
  lemma OversizeIsRefusedUnread(payload: seq<byte>, arrived: seq<byte>)
    requires |payload| <= U32_MAX
    ensures Next(BigEndian(|payload|) + arrived) == (Err(TooLarge(|payload|)), 4) <==> !Sendable(payload)
  {
    assert (BigEndian(|payload|) + arrived)[..4] == BigEndian(|payload|);
    LengthRoundTrip(|payload|);
  }

  /** A sender that does not look at the limit can still put such a frame out; the
      reader then gets all the earlier payloads and none of the later ones. */
  lemma {:induction false} OversizeEndsTheReading(before: seq<seq<byte>>, big: seq<byte>, after: seq<byte>)
    requires (forall p | p in before :: Sendable(p)) && MAX_CONTROL_FRAME < |big| <= U32_MAX
    ensures ReadAll(Wire(before) + Frame(big) + after) == Reading(before, Err(TooLarge(|big|)))
  {
    if before == [] {
      OversizeIsRefusedUnread(big, big + after);
      assert Wire(before) + Frame(big) + after == BigEndian(|big|) + (big + after);
    } else {
      assert before[0] in before;
      OversizeEndsTheReading(before[1..], big, after);
      var rest := Wire(before[1..]) + Frame(big) + after;
      assert Wire(before) + Frame(big) + after == Frame(before[0]) + rest;
      FrameThenTheRest(before[0], rest);
      assert [before[0]] + before[1..] == before;
    }
  }

  /** A write that fails part-way loses the frame it was writing and no other. */
  lemma {:induction false} FailedWriteLosesOneFrame(before: seq<seq<byte>>, payload: seq<byte>, n: nat)
    requires (forall p | p in before :: Sendable(p)) && Sendable(payload) && n < 4 + |payload|
    ensures ReadAll(Wire(before) + Frame(payload)[..n]) == Reading(before, if n == 0 then Ok(()) else Err(Broken))
  {
    if before == [] {
      CutWithinAFrame(payload, [], n);
      assert Wire(before) + Frame(payload)[..n] == (Frame(payload) + [])[..n];
    } else {
      assert before[0] in before;
      FailedWriteLosesOneFrame(before[1..], payload, n);
      var rest := Wire(before[1..]) + Frame(payload)[..n];
      assert Wire(before) + Frame(payload)[..n] == Frame(before[0]) + rest;
      FrameThenTheRest(before[0], rest);
      assert [before[0]] + before[1..] == before;
    }
  }

  // ---- Messages ----

  /** How messages become payloads and payloads messages, where they do. */
  datatype Codec<!M> = Codec(encode: M -> Option<seq<byte>>, decode: seq<byte> -> Option<M>)

  /** Whatever is encoded decodes to itself. */
  ghost predicate Inverse<M(!new)>(c: Codec<M>) {
    forall m: M :: c.encode(m).Some? ==> c.decode(c.encode(m).value) == Some(m)
  }

  function Decoded<M>(c: Codec<M>, r: Result<Received, FrameError>): Result<Option<M>, FrameError> {
    match r
    case Ok(Finished) => Ok(None)
    case Ok(Message(payload)) =>
      var m := c.decode(payload);
      if m.Some? then Ok(Some(m.value)) else Err(NotDecoded)
    case Err(e) => Err(e)
  }

  /** Every message a reader gets before it stops, and why it stopped. */
  function ReadMessages<M>(c: Codec<M>, stream: seq<byte>): (seq<M>, Result<(), FrameError>)
    decreases |stream|
  {
    var (r, used) := Next(stream);
    match Decoded(c, r)
    case Ok(Some(m)) =>
      var rest := ReadMessages(c, stream[used..]);
      ([m] + rest.0, rest.1)
    case Ok(None) => ([], Ok(()))
    case Err(e) => ([], Err(e))
  }

  predicate CanSend<M>(c: Codec<M>, m: M) {
    c.encode(m).Some? && Sendable(c.encode(m).value)
  }

  function Encoded<M>(c: Codec<M>, messages: seq<M>): seq<seq<byte>>
    requires forall m | m in messages :: CanSend(c, m)
    ensures forall p | p in Encoded(c, messages) :: Sendable(p)
  {
    if messages == [] then []
    else
      assert messages[0] in messages && CanSend(c, messages[0]);
      [c.encode(messages[0]).value] + Encoded(c, messages[1..])
  }

  /** Messages read back as they were sent, provided decoding undoes encoding,
      whatever follows them on the stream. */
  lemma {:induction false} MessagesReadBack<M(!new)>(c: Codec<M>, messages: seq<M>, rest: seq<byte>)
    requires Inverse(c) && forall m | m in messages :: CanSend(c, m)
    ensures var later := ReadMessages(c, rest);
            ReadMessages(c, Wire(Encoded(c, messages)) + rest) == (messages + later.0, later.1)
  {
    hide ReadMessages, Inverse, Frame;
    var payloads := Encoded(c, messages);
    if messages == [] {
      assert Wire(payloads) + rest == rest && messages + ReadMessages(c, rest).0 == ReadMessages(c, rest).0;
    } else {
      assert messages[0] in messages && CanSend(c, messages[0]);
      MessagesReadBack(c, messages[1..], rest);
      var following := Wire(Encoded(c, messages[1..])) + rest;
      assert payloads[1..] == Encoded(c, messages[1..]);
      assert Wire(payloads) + rest == Frame(payloads[0]) + following;
      ReadsOneMessage(c, messages[0], following);
      assert [messages[0]] + (messages[1..] + ReadMessages(c, rest).0) == messages + ReadMessages(c, rest).0;
    }
  }

  /** A payload that does not decode ends the reading; the messages before it have
      arrived, none after it does. So does a frame over the limit, and the end of
      the stream, clean only between frames. */
  lemma UndecodableEndsTheReading<M(!new)>(c: Codec<M>, messages: seq<M>, payload: seq<byte>, rest: seq<byte>)
    requires Inverse(c) && (forall m | m in messages :: CanSend(c, m)) && Sendable(payload)
    requires c.decode(payload) == None
    ensures ReadMessages(c, Wire(Encoded(c, messages)) + (Frame(payload) + rest)) == (messages, Err(NotDecoded))
  {
    hide Frame;
    MessagesReadBack(c, messages, Frame(payload) + rest);
    ReadsOneFrame(payload, rest);
    assert messages + [] == messages;
  }

  lemma WhatElseEndsTheReading<M>(c: Codec<M>, payload: seq<byte>, rest: seq<byte>, n: nat)
    requires |payload| <= U32_MAX && n < 4 + |payload|
    ensures !Sendable(payload) ==> ReadMessages(c, Frame(payload) + rest) == ([], Err(TooLarge(|payload|)))
    ensures Sendable(payload) ==>
              ReadMessages(c, Frame(payload)[..n]) == ([], if n == 0 then Ok(()) else Err(Broken))
  {
    if Sendable(payload) {
      CutWithinAFrame(payload, [], n);
      assert (Frame(payload) + [])[..n] == Frame(payload)[..n];
    } else {
      OversizeIsRefusedUnread(payload, payload + rest);
      assert Frame(payload) + rest == BigEndian(|payload|) + (payload + rest);
    }
  }

  lemma ReadsOneMessage<M(!new)>(c: Codec<M>, m: M, rest: seq<byte>)
    requires Inverse(c) && CanSend(c, m)
    ensures var later := ReadMessages(c, rest);
            ReadMessages(c, Frame(c.encode(m).value) + rest) == ([m] + later.0, later.1)
  {
    hide Next, Frame;
    ReadsOneFrame(c.encode(m).value, rest);
  }

  // ---- The two ends of a stream ----

  /** As much of some bytes as a stream takes before writing fails, if it does. */
  function Accepted(bytes: seq<byte>, accepts: Option<nat>): seq<byte> {
    if accepts.Some? && accepts.value < |bytes| then bytes[..accepts.value] else bytes
  }

  /** Writing two parts one after the other, as far as that goes, writes as much of
      the whole. */
  lemma AcceptedInTwo(first: seq<byte>, second: seq<byte>, accepts: Option<nat>)
    ensures if accepts.Some? && accepts.value < |first| then
              && Accepted(first, accepts) != first
              && Accepted(first + second, accepts) == Accepted(first, accepts) != first + second
            else
              var later := if accepts.Some? then Some(accepts.value - |first|) else None;
              && Accepted(first, accepts) == first
              && Accepted(first + second, accepts) == first + Accepted(second, later)
              && (Accepted(first + second, accepts) == first + second <==> Accepted(second, later) == second)
  {
    if accepts.Some? && accepts.value < |first| {
      assert |Accepted(first, accepts)| < |first|;
    } else if accepts.Some? && accepts.value < |first + second| {
      assert |Accepted(first + second, accepts)| < |first + second|;
    }
  }

  class ControlSender {
    var written: seq<byte>

    constructor ()
      ensures written == []
    {
      written := [];
    }

    method Write(bytes: seq<byte>, accepts: Option<nat>) returns (ok: bool)
      modifies this
      ensures written == old(written) + Accepted(bytes, accepts)
      ensures ok <==> Accepted(bytes, accepts) == bytes
    {
      written := written + Accepted(bytes, accepts);
      ok := accepts.None? || accepts.value >= |bytes|;
    }

    method Send<M>(c: Codec<M>, message: M, accepts: Option<nat>) returns (r: Result<(), FrameError>)
      modifies this
      ensures match c.encode(message)
              case None => r == Err(NotEncoded) && written == old(written)
              case Some(payload) =>
                if |payload| > U32_MAX then r == Err(TooLarge(|payload|)) && written == old(written)
                else
                  && written == old(written) + Accepted(Frame(payload), accepts)
                  && r == if Accepted(Frame(payload), accepts) == Frame(payload) then Ok(()) else Err(NotWritten)
    {
      var encoded := c.encode(message);
      if encoded.None? {
        return Err(NotEncoded);
      }
      var payload := encoded.value;
      if |payload| > U32_MAX {
        return Err(TooLarge(|payload|));
      }
      AcceptedInTwo(BigEndian(|payload|), payload, accepts);
      var ok := Write(BigEndian(|payload|), accepts);
      if !ok {
        return Err(NotWritten);
      }
      ok := Write(payload, if accepts.Some? then Some(accepts.value - 4) else None);
      return if ok then Ok(()) else Err(NotWritten);
    }
  }

  class ControlReceiver {
    const stream: seq<byte>
    var position: nat

    predicate Valid()
      reads this
    {
      position <= |stream|
    }

    constructor (stream: seq<byte>)
      ensures Valid() && this.stream == stream && position == 0
    {
      this.stream, position := stream, 0;
    }

    method Recv<M>(c: Codec<M>) returns (r: Result<Option<M>, FrameError>)
      requires Valid()
      modifies this
      ensures Valid()
      ensures var (received, used) := Next(stream[old(position)..]);
              r == Decoded(c, received) && position == old(position) + used
    {
      ghost var rest := stream[position..];
      if position == |stream| {
        return Ok(None);
      }
      if |stream| - position < 4 {
        position := |stream|;
        return Err(Broken);
      }
      var header := stream[position..position + 4];
      assert header == rest[..4];
      position := position + 4;
      var len := FrameLen(header, MAX_CONTROL_FRAME);
      if len.Err? {
        return Err(TooLarge(len.error));
      }
      if |stream| - position < len.value {
        position := |stream|;
        return Err(Broken);
      }
      var payload := stream[position..position + len.value];
      assert payload == rest[4..4 + len.value];
      position := position + len.value;
      var message := c.decode(payload);
      if message.None? {
        return Err(NotDecoded);
      }
      return Ok(message);
    }
  }
}
