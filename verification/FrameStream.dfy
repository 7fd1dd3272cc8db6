/** Reassembly of length-prefixed frames from arbitrary chunks of a byte stream. */
module FrameStream {

  type byte = b: int | 0 <= b < 256

  const LENGTH_PREFIX_BYTES := 4

  datatype Decoded<+F> = Frame(frame: F) | Malformed

  /** The payload codec: total, because a decode error is an outcome here. */
  type Decoder<!F> = seq<byte> -> Decoded<F>

  function ReadUInt32BE(bytes: seq<byte>): (n: nat)
    requires |bytes| >= LENGTH_PREFIX_BYTES
    ensures n < 0x1_0000_0000
  {
    var b0: int, b1: int, b2: int, b3: int := bytes[0], bytes[1], bytes[2], bytes[3];
    b0 * 0x100_0000 + b1 * 0x1_0000 + b2 * 0x100 + b3
  }

  /** The unsigned 32-bit wrap is the encoder's own. */
  function WriteUInt32BE(n: nat): (bytes: seq<byte>)
    ensures |bytes| == LENGTH_PREFIX_BYTES
    ensures ReadUInt32BE(bytes) == n % 0x1_0000_0000
  {
    var m0 := n % 0x1_0000_0000;
    var m1 := m0 / 0x100;
    var m2 := m1 / 0x100;
    [m2 / 0x100, m2 % 0x100, m1 % 0x100, m0 % 0x100]
  }

  /** The prefix is the payload's length, most significant byte first. */
  lemma PrefixIsBigEndian(n: nat)
    requires n < 0x1_0000_0000
    ensures var b := WriteUInt32BE(n);
            b == [n / 0x100_0000, n / 0x1_0000 % 0x100, n / 0x100 % 0x100, n % 0x100]
  {
    assert n / 0x100 / 0x100 == n / 0x1_0000;
    assert n / 0x1_0000 / 0x100 == n / 0x100_0000;
  }

  function EncodeFrame(payload: seq<byte>): seq<byte> {
    WriteUInt32BE(|payload|) + payload
  }

  predicate Complete(acc: seq<byte>) {
    |acc| >= LENGTH_PREFIX_BYTES && |acc| >= LENGTH_PREFIX_BYTES + ReadUInt32BE(acc)
  }

  function Payload(acc: seq<byte>): seq<byte>
    requires Complete(acc)
  {
    acc[LENGTH_PREFIX_BYTES..LENGTH_PREFIX_BYTES + ReadUInt32BE(acc)]
  }

  function Rest(acc: seq<byte>): seq<byte>
    requires Complete(acc)
  {
    acc[LENGTH_PREFIX_BYTES + ReadUInt32BE(acc)..]
  }

  /** Frames decoded until the bytes run out or a payload is malformed, and what is left over. */
  datatype Drained<F> = Drained(frames: seq<F>, rest: seq<byte>, failed: bool)

  function Drain<F>(decode: Decoder<F>, acc: seq<byte>): (d: Drained<F>)
    ensures !d.failed ==> !Complete(d.rest)
    ensures |d.rest| <= |acc|
    decreases |acc|
  {
    if !Complete(acc) then Drained([], acc, false)
    else match decode(Payload(acc))
      case Malformed => Drained([], Rest(acc), true)
      case Frame(f) => Prepend([f], Drain(decode, Rest(acc)))
  }

  function Prepend<F>(frames: seq<F>, d: Drained<F>): Drained<F> {
    d.(frames := frames + d.frames)
  }

  lemma PrependTwice<F>(a: seq<F>, b: seq<F>, d: Drained<F>)
    ensures Prepend(a, Prepend(b, d)) == Prepend(a + b, d)
  {
    assert a + (b + d.frames) == (a + b) + d.frames;
  }

  datatype Fed<F> = Emitted(frames: seq<F>) | ProtocolError

  class Reassembler<F> {
    const decode: Decoder<F>
    var accumulator: seq<byte>

    constructor (decode: Decoder<F>)
      ensures this.decode == decode && accumulator == []
    {
      this.decode := decode;
      accumulator := [];
    }

    /** A decode failure discards the frames already collected from the same chunk. */
    method Feed(chunk: seq<byte>) returns (r: Fed<F>)
      modifies this
      ensures var d := Drain(decode, old(accumulator) + chunk);
              accumulator == d.rest && r == if d.failed then ProtocolError else Emitted(d.frames)
    {
      accumulator := accumulator + chunk;
      ghost var all := accumulator;
      var out: seq<F> := [];
      while |accumulator| >= LENGTH_PREFIX_BYTES
        invariant Drain(decode, all) == Prepend(out, Drain(decode, accumulator))
        decreases |accumulator|
      {
        var length := ReadUInt32BE(accumulator);
        if |accumulator| < LENGTH_PREFIX_BYTES + length {
          break;
        }
        var payload := accumulator[LENGTH_PREFIX_BYTES..LENGTH_PREFIX_BYTES + length];
        accumulator := accumulator[LENGTH_PREFIX_BYTES + length..];
        match decode(payload) {
          case Malformed =>
            return ProtocolError;
          case Frame(f) =>
            PrependTwice(out, [f], Drain(decode, accumulator));
            out := out + [f];
        }
      }
      assert out + [] == out;
      return Emitted(out);
    }
  }

  // ---- A whole connection -------------------------------------------------------------------

  /** Everything emitted downstream before the stream fails or the chunks run out. */
  datatype Connection<F> = Connection(emitted: seq<F>, rest: seq<byte>, failed: bool)

  function FeedAll<F>(decode: Decoder<F>, acc: seq<byte>, chunks: seq<seq<byte>>): Connection<F>
    decreases |chunks|
  {
    if chunks == [] then Connection([], acc, false)
    else
      var d := Drain(decode, acc + chunks[0]);
      if d.failed then Connection([], d.rest, true)
      else
        var c := FeedAll(decode, d.rest, chunks[1..]);
        Connection(d.frames + c.emitted, c.rest, c.failed)
  }

  function Concat(chunks: seq<seq<byte>>): seq<byte> {
    if chunks == [] then [] else chunks[0] + Concat(chunks[1..])
  }

  lemma CompleteIsStable(a: seq<byte>, b: seq<byte>)
    requires Complete(a)
    ensures Complete(a + b) && Payload(a + b) == Payload(a) && Rest(a + b) == Rest(a) + b
  {
    assert ReadUInt32BE(a + b) == ReadUInt32BE(a);
  }

  /** Draining in two steps is draining at once; and a failure is final. */
  lemma {:induction false} DrainSplit<F>(decode: Decoder<F>, a: seq<byte>, b: seq<byte>)
    ensures !Drain(decode, a).failed ==>
              Drain(decode, a + b) == Prepend(Drain(decode, a).frames, Drain(decode, Drain(decode, a).rest + b))
    ensures Drain(decode, a).failed ==>
              Drain(decode, a + b).failed && Drain(decode, a + b).frames == Drain(decode, a).frames
    decreases |a|
  {
    if Complete(a) {
      CompleteIsStable(a, b);
      if decode(Payload(a)).Frame? {
        var f, rest := decode(Payload(a)).frame, Drain(decode, Rest(a));
        DrainSplit(decode, Rest(a), b);
        PrependTwice([f], rest.frames, Drain(decode, rest.rest + b));
      }
    }
  }

  /** A connection fails with the byte stream, emits a prefix of its frames, and all of them unless it fails. */
  predicate Sound<F(==)>(c: Connection<F>, d: Drained<F>) {
    && c.failed == d.failed && c.emitted <= d.frames
    && (!d.failed ==> c.emitted == d.frames && c.rest == d.rest && !Complete(c.rest))
  }

  lemma FeedOne<F>(decode: Decoder<F>, acc: seq<byte>, chunk: seq<byte>, after: seq<byte>)
    ensures var first, d := Drain(decode, acc + chunk), Drain(decode, acc + (chunk + after));
            if first.failed then d.failed else d == Prepend(first.frames, Drain(decode, first.rest + after))
  {
    DrainSplit(decode, acc + chunk, after);
    assert acc + (chunk + after) == (acc + chunk) + after;
  }

  lemma PrependSound<F>(frames: seq<F>, c: Connection<F>, d: Drained<F>)
    requires Sound(c, d)
    ensures Sound(Connection(frames + c.emitted, c.rest, c.failed), Prepend(frames, d))
  {
  }

  /**
   * Whatever the chunk boundaries, a connection fails exactly when the byte stream does, emits a
   * prefix of its frames, and emits all of them if it does not fail.
   */
  lemma {:induction false} FeedAllSound<F>(decode: Decoder<F>, acc: seq<byte>, chunks: seq<seq<byte>>)
    requires !Complete(acc)
    ensures Sound(FeedAll(decode, acc, chunks), Drain(decode, acc + Concat(chunks)))
    decreases |chunks|
  {
    if chunks == [] {
      assert acc + Concat(chunks) == acc;
    } else {
      var first, after := Drain(decode, acc + chunks[0]), Concat(chunks[1..]);
      FeedOne(decode, acc, chunks[0], after);
      if !first.failed {
        FeedAllSound(decode, first.rest, chunks[1..]);
        PrependSound(first.frames, FeedAll(decode, first.rest, chunks[1..]), Drain(decode, first.rest + after));
      }
    }
  }

  ghost predicate ChunkingDoesNotMatter<F(!new)>(decode: Decoder<F>, bytes: seq<byte>) {
    forall a, b :: Concat(a) == bytes && Concat(b) == bytes ==>
        FeedAll(decode, [], a).emitted == FeedAll(decode, [], b).emitted
  }

  lemma OneChunk<F>(decode: Decoder<F>, bytes: seq<byte>)
    requires Drain(decode, bytes).failed
    ensures Concat([bytes]) == bytes && FeedAll(decode, [], [bytes]).emitted == []
  {
    assert Concat([bytes]) == bytes + [] == bytes;
    assert [] + bytes == bytes;
  }

  /** Cutting after the first frame saves that frame. */
  lemma CutAfterFirstFrame<F>(decode: Decoder<F>, bytes: seq<byte>) returns (chunks: seq<seq<byte>>)
    requires Drain(decode, bytes).frames != []
    ensures Concat(chunks) == bytes && FeedAll(decode, [], chunks).emitted != []
  {
    var cut := LENGTH_PREFIX_BYTES + ReadUInt32BE(bytes);
    var head, tail := bytes[..cut], bytes[cut..];
    assert Payload(head) == Payload(bytes) && Rest(head) == [];
    chunks := [head, tail];
    assert chunks[1..] == [tail];
    assert Concat([tail]) == tail + [] == tail;
    assert Concat(chunks) == head + tail == bytes;
    assert [] + head == head;
    assert |Drain(decode, head).frames| == 1;
  }

  /**
   * All splits of a stream emit the same frames exactly when no payload is malformed, or the very
   * first one is: otherwise frames sharing a chunk with the bad payload are lost.
   */
  lemma ChunkingExact<F(!new)>(decode: Decoder<F>, bytes: seq<byte>)
    ensures ChunkingDoesNotMatter(decode, bytes)
       <==> !Drain(decode, bytes).failed || Drain(decode, bytes).frames == []
  {
    if !Drain(decode, bytes).failed || Drain(decode, bytes).frames == [] {
      assert [] + bytes == bytes;
      forall a, b | Concat(a) == bytes && Concat(b) == bytes
        ensures FeedAll(decode, [], a).emitted == FeedAll(decode, [], b).emitted
      {
        FeedAllSound(decode, [], a);
        FeedAllSound(decode, [], b);
      }
    } else {
      OneChunk(decode, bytes);
      var cut := CutAfterFirstFrame(decode, bytes);
    }
  }

  function EncodeAll(payloads: seq<seq<byte>>): seq<byte> {
    if payloads == [] then [] else EncodeFrame(payloads[0]) + EncodeAll(payloads[1..])
  }

  /** Encoded frames, concatenated and cut anywhere, parse back to the original frames with nothing left. */
  lemma {:induction false} EncodedRoundTrip<F>(decode: Decoder<F>, payloads: seq<seq<byte>>, frames: seq<F>,
                                               chunks: seq<seq<byte>>)
    requires |payloads| == |frames|
    requires forall i :: 0 <= i < |frames| ==> |payloads[i]| < 0x1_0000_0000 && decode(payloads[i]) == Frame(frames[i])
    requires Concat(chunks) == EncodeAll(payloads)
    ensures FeedAll(decode, [], chunks) == Connection(frames, [], false)
  {
    EncodedDrains(decode, payloads, frames);
    FeedAllSound(decode, [], chunks);
    assert [] + Concat(chunks) == EncodeAll(payloads);
  }

  lemma {:induction false} EncodedDrains<F>(decode: Decoder<F>, payloads: seq<seq<byte>>, frames: seq<F>)
    requires |payloads| == |frames|
    requires forall i :: 0 <= i < |frames| ==> |payloads[i]| < 0x1_0000_0000 && decode(payloads[i]) == Frame(frames[i])
    ensures Drain(decode, EncodeAll(payloads)) == Drained(frames, [], false)
    decreases |payloads|
  {
    if payloads != [] {
      var one := EncodeFrame(payloads[0]);
      assert ReadUInt32BE(one) == |payloads[0]|;
      assert Payload(one) == payloads[0] && Rest(one) == [];
      CompleteIsStable(one, EncodeAll(payloads[1..]));
      assert [] + EncodeAll(payloads[1..]) == EncodeAll(payloads[1..]);
      EncodedDrains(decode, payloads[1..], frames[1..]);
      assert [frames[0]] + frames[1..] == frames;
    }
  }
}
