/**
 Body frames of the relay (shared/relay-protocol.ts): a big-endian 32-bit stream id and at most 64 KiB of
 payload; and the agent's `take` (node-agent/src/relay.ts), which cuts the next frame from queued buffers.
 */
module RelayFrames {
  import opened Batches
  import opened Wrappers

  const MAX_FRAME_BYTES: int := 65536
  const WINDOW_BYTES: int := 524288
  const MAX_ID: int := 0xffff_ffff

  datatype Frame = Frame(s: nat, data: Bytes)

  predicate IsStream(s: int) { 0 < s <= MAX_ID }

  function U32(s: nat): (b: Bytes)
    requires s <= MAX_ID
    ensures |b| == 4
  {
    [s / 0x100_0000, s / 0x1_0000 % 256, s / 256 % 256, s % 256]
  }

  function FromU32(b: Bytes): nat
    requires |b| >= 4
  {
    var b0: int, b1: int, b2: int, b3: int := b[0], b[1], b[2], b[3];
    ((b0 * 256 + b1) * 256 + b2) * 256 + b3
  }

  /** `None` where the source throws. */
  function EncodeData(stream: int, payload: Bytes): Option<Bytes> {
    if !IsStream(stream) || |payload| > MAX_FRAME_BYTES then None else Some(U32(stream) + payload)
  }

  function DecodeData(frame: Bytes): Option<Frame> {
    if |frame| < 4 || |frame| > 4 + MAX_FRAME_BYTES || !IsStream(FromU32(frame)) then None
    else Some(Frame(FromU32(frame), frame[4..]))
  }

  lemma U32RoundTrip(s: nat)
    requires s <= MAX_ID
    ensures FromU32(U32(s)) == s
  {
    assert s == 256 * (s / 256) + s % 256 && s / 256 == 256 * (s / 0x1_0000) + s / 256 % 256;
    assert s / 0x1_0000 == 256 * (s / 0x100_0000) + s / 0x1_0000 % 256;
  }

  /** The four bytes of an id, the most significant first. */
  lemma IdBytes(s: nat)
    requires s <= MAX_ID
    ensures var b := U32(s);
      s == b[0] as int * 0x100_0000 + b[1] as int * 0x1_0000 + b[2] as int * 0x100 + b[3] as int
  {
    U32RoundTrip(s);
  }

  /** Every frame that can be encoded decodes to its stream and payload, and every frame that decodes was so encoded. */
  lemma FrameRoundTrip(stream: int, payload: Bytes, frame: Bytes)
    ensures EncodeData(stream, payload) == Some(frame)
      <==> stream >= 0 && DecodeData(frame) == Some(Frame(stream, payload))
    ensures EncodeData(stream, payload).Some? <==> 0 < stream < 0x1_0000_0000 && |payload| <= 0x1_0000
  {
    if EncodeData(stream, payload) == Some(frame) {
      U32RoundTrip(stream);
      assert frame[4..] == payload;
      assert frame[..4] == U32(stream);
      assert FromU32(frame) == FromU32(U32(stream));
    }
    if stream >= 0 && DecodeData(frame) == Some(Frame(stream, payload)) {
      U32Unique(frame[..4], stream);
      assert frame == frame[..4] + frame[4..];
    }
  }

  lemma U32Unique(b: Bytes, s: nat)
    requires |b| == 4 && FromU32(b) == s
    ensures s <= MAX_ID && U32(s) == b
  {
    var b0: int, b1: int, b2: int, b3: int := b[0], b[1], b[2], b[3];
    assert s / 256 == (b0 * 256 + b1) * 256 + b2 && s / 0x1_0000 == b0 * 256 + b1 && s / 0x100_0000 == b0;
  }

  /**
   The next `n` queued bytes as one buffer, and the buffers that remain: whole ones dropped, a partly used one cut.
   */
  method Take(out: seq<Bytes>, n: nat) returns (frame: Bytes, rest: seq<Bytes>)
    requires n <= |Flatten(out)|
    ensures frame == Flatten(out)[..n] && Flatten(rest) == Flatten(out)[n..]
  {
    frame, rest := [], out;
    while |frame| < n
      invariant |frame| <= n && frame + Flatten(rest) == Flatten(out)
      decreases n - |frame|, |rest|
    {
      var b := rest[0];
      var k := if |b| < n - |frame| then |b| else n - |frame|;
      assert frame + b[..k] + (b[k..] + Flatten(rest[1..])) == frame + Flatten(rest);
      frame := frame + b[..k];
      if k == |b| {
        rest := rest[1..];
      } else {
        assert Flatten([b[k..]] + rest[1..]) == b[k..] + Flatten(rest[1..]);
        rest := [b[k..]] + rest[1..];
      }
    }
    assert frame == Flatten(out)[..n];
  }
}
