/** The byte stream of a peer connection: length-prefixed frames, told apart from JSON control
    messages by their first byte (src/network/client.rs). */
module Frames {
  import opened Model

  type Byte = b: nat | b < 256 witness 0

  /** '{', the byte on which the receiver takes a stream for a control message. */
  const BRACE: Byte := 0x7B

  const U32_RANGE: nat := 0x1_0000_0000

  /** `(n as u32).to_be_bytes()`: the cast drops everything above 32 bits. */
  function U32Bytes(n: nat): (r: seq<Byte>)
    ensures |r| == 4
  {
    var m := n % U32_RANGE;
    [m / 0x100 / 0x100 / 0x100, m / 0x100 / 0x100 % 0x100, m / 0x100 % 0x100, m % 0x100]
  }

  function U32Value(b: seq<Byte>): nat
    requires |b| == 4
  {
    0x100 * (0x100 * (0x100 * (b[0] as int) + b[1] as int) + b[2] as int) + b[3] as int
  }

  function Frame(payload: seq<Byte>): seq<Byte> {
    U32Bytes(|payload|) + payload
  }

  /** What send_bundle writes for each payload in turn. */
  function Stream(payloads: seq<seq<Byte>>): seq<Byte> {
    if payloads == [] then [] else Frame(payloads[0]) + Stream(payloads[1..])
  }

  /** What the receiver finds at the head of a stream that the sender then closes. */
  datatype Head =
    | Closed
    | Control
    | Truncated
    | Payload(bytes: seq<Byte>, rest: seq<Byte>)

  function Next(stream: seq<Byte>): (h: Head)
    ensures h.Payload? ==> |h.rest| < |stream|
  {
    if stream == [] then Closed
    else if stream[0] == BRACE then Control
    else if |stream| < 4 || |stream| < 4 + U32Value(stream[..4]) then Truncated
    else
      var end := 4 + U32Value(stream[..4]);
      Payload(stream[4..end], stream[end..])
  }

  /** The payloads in front of the first thing that is not a whole frame, and that thing. */
  function Parse(stream: seq<Byte>): (seq<seq<Byte>>, Head)
    decreases |stream|
  {
    var h := Next(stream);
    if h.Payload? then
      var (payloads, last) := Parse(h.rest);
      ([h.bytes] + payloads, last)
    else ([], h)
  }

  /** read_exact: the next `n` bytes, or nothing when the stream ends before them. */
  method ReadExact(stream: seq<Byte>, n: nat) returns (bytes: Option<seq<Byte>>, rest: seq<Byte>)
    ensures bytes.Some? <==> n <= |stream|
    ensures bytes.Some? ==> |bytes.value| == n && bytes.value + rest == stream
  {
    if n <= |stream| {
      bytes, rest := Some(stream[..n]), stream[n..];
    } else {
      bytes, rest := None, stream;
    }
  }

  /** The reads of receive_bundle: the prefix, then as many bytes as it says. */
  method ReceivePayload(stream: seq<Byte>) returns (payload: Option<seq<Byte>>, rest: seq<Byte>)
    requires stream != [] && stream[0] != BRACE
    ensures payload.None? <==> Next(stream).Truncated?
    ensures payload.Some? ==> Next(stream) == Payload(payload.value, rest)
  {
    var prefix, afterPrefix := ReadExact(stream, 4);
    if prefix.None? {
      return None, stream;
    }
    assert prefix.value == stream[..4] && afterPrefix == stream[4..];
    payload, rest := ReadExact(afterPrefix, U32Value(prefix.value));
    if payload.Some? {
      var end := 4 + U32Value(prefix.value);
      assert payload.value == afterPrefix[..|payload.value|] == stream[4..end];
      assert rest == afterPrefix[|payload.value|..] == stream[end..];
    }
  }

  /** A payload survives framing: its length fits 32 bits and does not begin with a brace. */
  predicate Framable(payload: seq<Byte>) {
    |payload| < U32_RANGE && |payload| / 0x100_0000 != BRACE
  }

  lemma {:induction false} PrefixRoundTrip(n: nat)
    ensures U32Value(U32Bytes(n)) == n % U32_RANGE
    ensures U32Bytes(n)[0] == n % U32_RANGE / 0x100_0000
  {
  }

  lemma {:induction false} HeadOfFrame(payload: seq<Byte>, tail: seq<Byte>)
    ensures Framable(payload) ==> Next(Frame(payload) + tail) == Payload(payload, tail)
    ensures !Framable(payload) ==>
              Next(Frame(payload) + tail) == Control
              || (Next(Frame(payload) + tail).Payload? && Next(Frame(payload) + tail).bytes != payload)
  {
    var n := |payload|;
    var s := Frame(payload) + tail;
    PrefixRoundTrip(n);
    assert s[..4] == U32Bytes(n);
    assert s[0] == U32Bytes(n)[0];
    assert s[4..] == payload + tail;
    if s[0] != BRACE {
      var m := n % U32_RANGE;
      assert s[4..4 + m] == s[4..][..m] && s[4 + m..] == s[4..][m..];
    }
  }

  /** The receive loop over the frames of a list recovers exactly that list and ends at the stream's end
      if and only if every payload is framable. */
  lemma {:induction false} StreamRoundTrip(payloads: seq<seq<Byte>>)
    ensures Parse(Stream(payloads)) == (payloads, Closed) <==> forall p :: p in payloads ==> Framable(p)
  {
    if payloads != [] {
      var p, rest := payloads[0], payloads[1..];
      HeadOfFrame(p, Stream(rest));
      StreamRoundTrip(rest);
      assert payloads == [p] + rest;
      if Framable(p) {
        assert Parse(Stream(payloads)) == ([p] + Parse(Stream(rest)).0, Parse(Stream(rest)).1);
        assert ([p] + Parse(Stream(rest)).0)[1..] == Parse(Stream(rest)).0;
        assert (forall q :: q in payloads ==> Framable(q)) <==> forall q :: q in rest ==> Framable(q);
      } else {
        assert p in payloads;
        assert Parse(Stream(payloads)).0 == [] || Parse(Stream(payloads)).0[0] != p;
      }
    }
  }

  /** A payload the receiver mistakes for a control message. */
  lemma {:induction false} BraceLengthIsLost(payload: seq<Byte>)
    requires |payload| == 0x7B00_0000
    ensures Parse(Stream([payload])) == ([], Control)
  {
    var s := Stream([payload]);
    assert s[0] == BRACE;
  }
}
