/**
 The frames of libel/net/protobuf/ProtobufCodecLite.{h,cpp}. A message travels as its codec's tag
 and its serialised bytes, closed by the Adler-32 checksum of both and led by a 32-bit count of
 everything behind the count itself. Serialising a protobuf message and parsing it back stay
 abstract.
 */
module FrameCodec {
  import opened Bytes
  import opened Adler32
  import opened Buffers
  import opened Sequences

  const HEADER_LEN: nat := 4
  const CHECKSUM_LEN: nat := 4
  const MAX_MESSAGE_LEN: nat := 64 * 1024 * 1024

  /**
   `minLen` is `kMinMessageLen_`. The constructor computes it from a string it has already moved
   from, so it can be anything from the checksum alone up to tag and checksum.
   `accept` is the raw-message callback; it answers true when none is installed.
   */
  datatype Codec<!M> = Codec(
    tag: seq<Byte>,
    minLen: nat,
    serialize: M -> seq<Byte>,
    deserialize: seq<Byte> -> Option<M>,
    accept: seq<Byte> -> bool)

  datatype ErrorCode = InvalidLength | CheckSumError | UnknownMessageType | ParseError

  /** `OutsideFrame`: the tag comparison or the payload length runs outside the frame. */
  datatype Parsed<M> = Good(message: M) | Bad(code: ErrorCode) | OutsideFrame

  predicate ValidMinLen<M>(c: Codec<M>) {
    CHECKSUM_LEN <= c.minLen <= |c.tag| + CHECKSUM_LEN
  }

  ghost predicate WellBehaved<M(!new)>(c: Codec<M>) {
    ValidMinLen(c) && forall m :: c.deserialize(c.serialize(m)) == Some(m)
  }

  /** `static_cast<int32_t>` followed by `hostToNetwork32`. */
  function Int32Bytes(x: nat): (s: seq<Byte>)
    ensures |s| == 4
  {
    BigEndian(4, x % 0x1_0000_0000)
  }

  lemma FourBytes()
    ensures Pow256(4) == 0x1_0000_0000
  {
  }

  lemma Int32BytesValue(x: nat)
    requires x < 0x1_0000_0000
    ensures Value(Int32Bytes(x)) == x
  {
    FourBytes();
    ValueOfBigEndian(4, x % 0x1_0000_0000);
  }

  lemma Int32BytesRead(x: nat)
    requires x < 0x1_0000_0000
    ensures DecodeInt(Int32Bytes(x)) == if x < 0x8000_0000 then x else x - 0x1_0000_0000
  {
    FourBytes();
    Int32BytesValue(x);
  }

  function Sealed(covered: seq<Byte>): seq<Byte> {
    covered + Int32Bytes(Checksum(covered))
  }

  function Encode<M>(c: Codec<M>, m: M): (f: seq<Byte>)
    ensures |f| == HEADER_LEN + |c.tag| + |c.serialize(m)| + CHECKSUM_LEN
  {
    var body := Sealed(c.tag + c.serialize(m));
    Int32Bytes(|body|) + body
  }

  /** The frame's length field stays within the limit that the receiver enforces. */
  predicate WithinLimit<M>(c: Codec<M>, m: M) {
    |Encode(c, m)| - HEADER_LEN <= MAX_MESSAGE_LEN
  }

  function EncodeAll<M>(c: Codec<M>, ms: seq<M>): seq<Byte> {
    if ms == [] then [] else Encode(c, ms[0]) + EncodeAll(c, ms[1..])
  }

  method FillEmptyBuffer<M>(c: Codec<M>, buffer: Buffer, m: M)
    requires buffer.Valid() && buffer.Contents() == [] && buffer.readerIndex >= HEADER_LEN
    modifies buffer
    ensures buffer.Valid() && buffer.Contents() == Encode(c, m)
  {
    buffer.Append(c.tag);
    var payload := c.serialize(m);
    buffer.EnsureWritableBytes(|payload| + CHECKSUM_LEN);
    buffer.WriteInPlace(payload);
    buffer.HasWritten(|payload|);
    var covered := buffer.Contents();
    assert covered == c.tag + payload;
    var checksum := Checksum(covered);
    buffer.Append(Int32Bytes(checksum));
    assert buffer.Contents() == Sealed(covered);
    buffer.Prepend(Int32Bytes(buffer.ReadableBytes()));
  }

  predicate ValidChecksum(body: seq<Byte>)
    requires |body| >= CHECKSUM_LEN
  {
    var n := |body| - CHECKSUM_LEN;
    DecodeInt(body[n..]) == ToSigned(4, Checksum(body[..n]))
  }

  /** `parse`, on the bytes after the length field. */
  function Parse<M>(c: Codec<M>, body: seq<Byte>): Parsed<M>
    requires |body| >= CHECKSUM_LEN
  {
    if !ValidChecksum(body) then Bad(CheckSumError)
    else if |body| < |c.tag| then OutsideFrame
    else if body[..|c.tag|] != c.tag then Bad(UnknownMessageType)
    else if |body| < |c.tag| + CHECKSUM_LEN then OutsideFrame
    else
      match c.deserialize(body[|c.tag|..|body| - CHECKSUM_LEN])
      case Some(m) => Good(m)
      case None => Bad(ParseError)
  }

  /** Why `onMessage` returned. */
  datatype Stop = Waiting | Error(code: ErrorCode) | Escaped

  datatype Outcome<M> = Outcome(delivered: seq<M>, left: seq<Byte>, stop: Stop) {
    function Preceded(earlier: seq<M>): Outcome<M> {
      Outcome(earlier + delivered, left, stop)
    }

    lemma PrecededByNothing()
      ensures Preceded([]) == this
    {
      assert [] + delivered == delivered;
    }

    lemma PrecededTwice(first: seq<M>, second: seq<M>)
      ensures Preceded(second).Preceded(first) == Preceded(first + second)
    {
      assert first + (second + delivered) == (first + second) + delivered;
    }
  }

  /** What the length field at the front of the buffer says: wait, refuse, or a frame of `size` bytes. */
  datatype Head = NeedMore | BadLength | Frame(size: nat)

  function FirstFrame<M>(c: Codec<M>, buf: seq<Byte>): (h: Head)
    requires ValidMinLen(c)
    ensures h.Frame? ==> HEADER_LEN + CHECKSUM_LEN <= h.size <= |buf|
  {
    if |buf| < c.minLen + HEADER_LEN then NeedMore
    else
      var len := DecodeInt(buf[..HEADER_LEN]);
      if len > MAX_MESSAGE_LEN || len < c.minLen then BadLength
      else if |buf| >= HEADER_LEN + len then Frame(HEADER_LEN + len)
      else NeedMore
  }

  /** One call of `onMessage` on a buffer holding `buf`. */
  function Receive<M>(c: Codec<M>, buf: seq<Byte>): (r: Outcome<M>)
    requires ValidMinLen(c)
    ensures |r.left| <= |buf| && r.left == buf[|buf| - |r.left|..]
    decreases |buf|
  {
    match FirstFrame(c, buf)
    case NeedMore => Outcome([], buf, Waiting)
    case BadLength => Outcome([], buf, Error(InvalidLength))
    case Frame(n) =>
      if !c.accept(buf[..n]) then Receive(c, buf[n..])
      else
        match Parse(c, buf[HEADER_LEN..n])
        case Good(m) => Receive(c, buf[n..]).Preceded([m])
        case Bad(code) => Outcome([], buf, Error(code))
        case OutsideFrame => Outcome([], buf, Escaped)
  }

  lemma ReceiveGood<M>(c: Codec<M>, buf: seq<Byte>, n: nat, m: M)
    requires ValidMinLen(c) && FirstFrame(c, buf) == Frame(n) && c.accept(buf[..n])
    requires Parse(c, buf[HEADER_LEN..n]) == Good(m)
    ensures Receive(c, buf) == Receive(c, buf[n..]).Preceded([m])
  {
  }

  lemma ReceiveBad<M>(c: Codec<M>, buf: seq<Byte>, n: nat, code: ErrorCode)
    requires ValidMinLen(c) && FirstFrame(c, buf) == Frame(n) && c.accept(buf[..n])
    requires Parse(c, buf[HEADER_LEN..n]) == Bad(code)
    ensures Receive(c, buf) == Outcome([], buf, Error(code))
  {
  }

  lemma NothingMore<M>(c: Codec<M>, buf: seq<Byte>, stop: Stop, delivered: seq<M>)
    requires ValidMinLen(c) && Receive(c, buf) == Outcome([], buf, stop)
    ensures Receive(c, buf).Preceded(delivered) == Outcome(delivered, buf, stop)
  {
    assert delivered + [] == delivered;
  }

  /** The tests that `onMessage` makes before it touches a frame. */
  method JudgeHead<M>(c: Codec<M>, buffer: Buffer) returns (head: Head)
    requires ValidMinLen(c) && buffer.Valid()
    ensures head == FirstFrame(c, buffer.Contents())
  {
    if buffer.ReadableBytes() < c.minLen + HEADER_LEN {
      return NeedMore;
    }
    var len := buffer.PeekInt(HEADER_LEN);
    IntRoundTrip(HEADER_LEN, len);
    if len > MAX_MESSAGE_LEN || len < c.minLen {
      return BadLength;
    } else if buffer.ReadableBytes() >= HEADER_LEN + len {
      return Frame(HEADER_LEN + len);
    } else {
      return NeedMore;
    }
  }

  method OnMessage<M>(c: Codec<M>, buffer: Buffer) returns (delivered: seq<M>, stop: Stop)
    requires ValidMinLen(c) && buffer.Valid()
    modifies buffer
    ensures buffer.Valid()
    ensures Outcome(delivered, buffer.Contents(), stop) == Receive(c, old(buffer.Contents()))
  {
    ghost var all := Receive(c, buffer.Contents());
    delivered, stop := [], Waiting;
    all.PrecededByNothing();
    var head := JudgeHead(c, buffer);
    while head.Frame?
      invariant buffer.Valid() && head == FirstFrame(c, buffer.Contents()) && stop == Waiting
      invariant all == Receive(c, buffer.Contents()).Preceded(delivered)
      decreases |buffer.Contents()|
    {
      ghost var bytes := buffer.Contents();
      var frame := buffer.Contents()[..head.size];
      if c.accept(frame) {
        assert frame[HEADER_LEN..] == bytes[HEADER_LEN..head.size];
        var parsed := Parse(c, frame[HEADER_LEN..]);
        if !parsed.Good? {
          stop := if parsed.Bad? then Error(parsed.code) else Escaped;
          NothingMore(c, bytes, stop, delivered);
          return;
        }
        ReceiveGood(c, bytes, head.size, parsed.message);
        Receive(c, bytes[head.size..]).PrecededTwice(delivered, [parsed.message]);
        delivered := delivered + [parsed.message];
      }
      buffer.Retrieve(head.size);
      head := JudgeHead(c, buffer);
    }
    if head == BadLength {
      stop := Error(InvalidLength);
    }
    NothingMore(c, buffer.Contents(), stop, delivered);
  }

  // ---------- Any stream, any cut ----------

  /** Once the length field has been judged, further bytes do not change the judgement. */
  lemma HeadIsStable<M>(c: Codec<M>, x: seq<Byte>, y: seq<Byte>)
    requires ValidMinLen(c) && FirstFrame(c, x) != NeedMore
    ensures FirstFrame(c, x + y) == FirstFrame(c, x)
  {
    assert (x + y)[..HEADER_LEN] == x[..HEADER_LEN];
  }

  /** Delivering `x` and then `y` is delivering `x + y`, for every byte stream. */
  lemma {:induction false} ReceiveInTwo<M>(c: Codec<M>, x: seq<Byte>, y: seq<Byte>)
    requires ValidMinLen(c)
    ensures var first := Receive(c, x);
            Receive(c, x + y) == Receive(c, first.left + y).Preceded(first.delivered)
    decreases |x|
  {
    var head := FirstFrame(c, x);
    if head.Frame? {
      var n := head.size;
      var whole := x + y;
      HeadIsStable(c, x, y);
      assert whole[..n] == x[..n] && whole[HEADER_LEN..n] == x[HEADER_LEN..n];
      assert whole[n..] == x[n..] + y;
      if !c.accept(x[..n]) {
        ReceiveInTwo(c, x[n..], y);
        return;
      }
      var parsed := Parse(c, x[HEADER_LEN..n]);
      if parsed.Good? {
        ReceiveInTwo(c, x[n..], y);
        var tail := Receive(c, x[n..]);
        Receive(c, tail.left + y).PrecededTwice([parsed.message], tail.delivered);
        return;
      }
    } else if head == BadLength {
      HeadIsStable(c, x, y);
    }
    Receive(c, x + y).PrecededByNothing();
  }

  /** The chunks arriving one after another, `onMessage` running after each. */
  function ReceiveAll<M>(c: Codec<M>, chunks: seq<seq<Byte>>): Outcome<M>
    requires ValidMinLen(c)
  {
    if chunks == [] then Outcome([], [], Waiting)
    else
      var before := ReceiveAll(c, chunks[..|chunks| - 1]);
      Receive(c, before.left + chunks[|chunks| - 1]).Preceded(before.delivered)
  }

  /** How a stream is cut into chunks changes neither the messages, nor what is left, nor the verdict. */
  lemma {:induction false} ChunkingIsInvisible<M>(c: Codec<M>, chunks: seq<seq<Byte>>)
    requires ValidMinLen(c)
    ensures ReceiveAll(c, chunks) == Receive(c, Flatten(chunks))
  {
    if chunks == [] {
    } else {
      var init := chunks[..|chunks| - 1];
      FlattenLast(chunks);
      ChunkingIsInvisible(c, init);
      ReceiveInTwo(c, Flatten(init), chunks[|chunks| - 1]);
    }
  }

  // ---------- Streams of encoded messages ----------

  lemma LengthFieldReads<M>(c: Codec<M>, m: M, rest: seq<Byte>)
    requires WithinLimit(c, m)
    ensures DecodeInt((Encode(c, m) + rest)[..HEADER_LEN]) == |Encode(c, m)| - HEADER_LEN
  {
    var len := |Encode(c, m)| - HEADER_LEN;
    assert (Encode(c, m) + rest)[..HEADER_LEN] == Int32Bytes(len);
    Int32BytesRead(len);
  }

  lemma HeadOfFrame<M>(c: Codec<M>, m: M, buf: seq<Byte>)
    requires ValidMinLen(c) && WithinLimit(c, m)
    requires |buf| >= HEADER_LEN && buf[..HEADER_LEN] == Encode(c, m)[..HEADER_LEN]
    ensures FirstFrame(c, buf) == if |buf| < |Encode(c, m)| then NeedMore else Frame(|Encode(c, m)|)
  {
    LengthFieldReads(c, m, []);
    assert (Encode(c, m) + [])[..HEADER_LEN] == Encode(c, m)[..HEADER_LEN];
  }

  lemma SealedIsValid(covered: seq<Byte>)
    ensures ValidChecksum(Sealed(covered))
  {
    var body := Sealed(covered);
    assert body[..|covered|] == covered && body[|covered|..] == Int32Bytes(Checksum(covered));
    Int32BytesRead(Checksum(covered));
    FourBytes();
  }

  lemma ParseOfEncoded<M(!new)>(c: Codec<M>, m: M)
    requires WellBehaved(c)
    ensures Parse(c, Encode(c, m)[HEADER_LEN..]) == Good(m)
  {
    var covered := c.tag + c.serialize(m);
    var body := Encode(c, m)[HEADER_LEN..];
    assert body == Sealed(covered);
    SealedIsValid(covered);
    assert body[..|c.tag|] == c.tag && body[|c.tag|..|body| - CHECKSUM_LEN] == c.serialize(m);
  }

  lemma ReceiveFrame<M(!new)>(c: Codec<M>, m: M, rest: seq<Byte>)
    requires WellBehaved(c) && WithinLimit(c, m) && c.accept(Encode(c, m))
    ensures Receive(c, Encode(c, m) + rest) == Receive(c, rest).Preceded([m])
  {
    var buf, n := Encode(c, m) + rest, |Encode(c, m)|;
    assert buf[..HEADER_LEN] == Encode(c, m)[..HEADER_LEN];
    HeadOfFrame(c, m, buf);
    ParseOfEncoded(c, m);
    assert buf[..n] == Encode(c, m) && buf[n..] == rest;
    assert buf[HEADER_LEN..n] == Encode(c, m)[HEADER_LEN..];
  }

  lemma ReceivePartOfFrame<M>(c: Codec<M>, m: M, k: nat)
    requires ValidMinLen(c) && WithinLimit(c, m) && k < |Encode(c, m)|
    ensures Receive(c, Encode(c, m)[..k]) == Outcome([], Encode(c, m)[..k], Waiting)
  {
    if k >= HEADER_LEN {
      assert Encode(c, m)[..k][..HEADER_LEN] == Encode(c, m)[..HEADER_LEN];
      HeadOfFrame(c, m, Encode(c, m)[..k]);
    }
  }

  predicate AllSendable<M>(c: Codec<M>, ms: seq<M>) {
    forall i :: 0 <= i < |ms| ==> WithinLimit(c, ms[i]) && c.accept(Encode(c, ms[i]))
  }

  /** Whole frames at the front are delivered in order, whatever follows them. */
  lemma {:induction false} ReceiveWhole<M(!new)>(c: Codec<M>, ms: seq<M>, rest: seq<Byte>)
    requires WellBehaved(c) && AllSendable(c, ms)
    ensures Receive(c, EncodeAll(c, ms) + rest) == Receive(c, rest).Preceded(ms)
  {
    if ms == [] {
      assert EncodeAll(c, ms) + rest == rest;
      Receive(c, rest).PrecededByNothing();
    } else {
      var others := EncodeAll(c, ms[1..]);
      assert [ms[0]] + ms[1..] == ms;
      Associates(Encode(c, ms[0]), others, rest);
      ReceiveWhole(c, ms[1..], rest);
      ReceiveFrame(c, ms[0], others + rest);
      Receive(c, rest).PrecededTwice([ms[0]], ms[1..]);
    }
  }

  /** How many whole frames fit in the first `n` bytes of the encoded stream. */
  function WholeFrames<M>(c: Codec<M>, ms: seq<M>, n: nat): (k: nat)
    ensures k <= |ms|
  {
    if ms == [] || n < |Encode(c, ms[0])| then 0
    else 1 + WholeFrames(c, ms[1..], n - |Encode(c, ms[0])|)
  }

  lemma DropPrefix(f: seq<Byte>, g: seq<Byte>, p: seq<Byte>, whole: seq<Byte>)
    requires |f| <= |p| && p <= f + g
    ensures p[|f|..] <= g
    ensures whole <= p[|f|..] ==> f + whole <= p && p[|f + whole|..] == p[|f|..][|whole|..]
  {
    assert p == f + p[|f|..];
  }

  /** `p` is the first `k` frames and then less than one more. */
  predicate CutAfter<M>(c: Codec<M>, ms: seq<M>, p: seq<Byte>, k: nat)
    requires k <= |ms|
  {
    var whole := EncodeAll(c, ms[..k]);
    && whole <= p
    && (k == |ms| ==> p == whole)
    && (k < |ms| ==> p[|whole|..] < Encode(c, ms[k]))
  }

  lemma OneFrameMore<M>(c: Codec<M>, ms: seq<M>, p: seq<Byte>, k: nat)
    requires k < |ms| && p <= EncodeAll(c, ms) && |Encode(c, ms[0])| <= |p|
    requires CutAfter(c, ms[1..], p[|Encode(c, ms[0])|..], k)
    ensures CutAfter(c, ms, p, k + 1)
  {
    var f, whole := Encode(c, ms[0]), EncodeAll(c, ms[1..][..k]);
    assert ms[..k + 1][0] == ms[0] && ms[..k + 1][1..] == ms[1..][..k];
    DropPrefix(f, EncodeAll(c, ms[1..]), p, whole);
  }

  /** Every prefix of the stream is some whole frames and then less than one more frame. */
  lemma {:induction false} PrefixSplits<M>(c: Codec<M>, ms: seq<M>, p: seq<Byte>)
    requires p <= EncodeAll(c, ms)
    ensures CutAfter(c, ms, p, WholeFrames(c, ms, |p|))
  {
    if ms == [] {
    } else {
      var f := Encode(c, ms[0]);
      if |p| < |f| {
        assert p == f[..|p|];
        assert ms[..0] == [];
        assert p[0..] == p;
      } else {
        DropPrefix(f, EncodeAll(c, ms[1..]), p, []);
        PrefixSplits(c, ms[1..], p[|f|..]);
        OneFrameMore(c, ms, p, WholeFrames(c, ms[1..], |p| - |f|));
      }
    }
  }

  /**
   Any list of messages, encoded, concatenated and cut at arbitrary points, with the end possibly
   still to come: exactly the messages whose frames are complete are delivered, in order, and
   exactly the bytes of the unfinished frame stay buffered.
   */
  lemma DeliversInOrder<M(!new)>(c: Codec<M>, ms: seq<M>, chunks: seq<seq<Byte>>)
    requires WellBehaved(c) && AllSendable(c, ms)
    requires Flatten(chunks) <= EncodeAll(c, ms)
    ensures var p := Flatten(chunks);
            var k := WholeFrames(c, ms, |p|);
            var whole := EncodeAll(c, ms[..k]);
            && whole <= p
            && (k < |ms| ==> p[|whole|..] < Encode(c, ms[k]))
            && ReceiveAll(c, chunks) == Outcome(ms[..k], p[|whole|..], Waiting)
  {
    var p := Flatten(chunks);
    var k := WholeFrames(c, ms, |p|);
    var whole := EncodeAll(c, ms[..k]);
    PrefixSplits(c, ms, p);
    var rest := p[|whole|..];
    assert p == whole + rest;
    if k < |ms| {
      ReceivePartOfFrame(c, ms[k], |rest|);
      assert rest == Encode(c, ms[k])[..|rest|];
    } else {
      assert rest == [] && Receive(c, rest) == Outcome([], [], Waiting);
    }
    ReceiveWhole(c, ms[..k], rest);
    NothingMore(c, rest, Waiting, ms[..k]);
    ChunkingIsInvisible(c, chunks);
  }

  // ---------- Damaged frames ----------

  lemma Int32BytesInjective(x: nat, y: nat)
    requires x < 0x1_0000_0000 && y < 0x1_0000_0000 && Int32Bytes(x) == Int32Bytes(y)
    ensures x == y
  {
    Int32BytesValue(x);
    Int32BytesValue(y);
  }

  lemma ValidChecksumIsSealed(body: seq<Byte>)
    requires |body| >= CHECKSUM_LEN
    ensures ValidChecksum(body) <==> body == Sealed(body[..|body| - CHECKSUM_LEN])
  {
    var n := |body| - CHECKSUM_LEN;
    SealedIsValid(body[..n]);
    if ValidChecksum(body) {
      var sealed := Sealed(body[..n]);
      assert sealed[..n] == body[..n];
      DecodeIntInjective(body[n..], sealed[n..]);
      assert body == body[..n] + body[n..];
    }
  }

  lemma SealsDiffer(x: seq<Byte>, y: seq<Byte>)
    requires |x| == |y| && Sealed(x)[|x|..] == Sealed(y)[|y|..]
    ensures Checksum(x) == Checksum(y)
  {
    assert Sealed(x)[|x|..] == Int32Bytes(Checksum(x)) && Sealed(y)[|y|..] == Int32Bytes(Checksum(y));
    FourBytes();
    Int32BytesInjective(Checksum(x), Checksum(y));
  }

  /** A change of any one byte of tag, payload or checksum is caught, whatever the length. */
  lemma DetectsDamagedByte<M>(c: Codec<M>, body: seq<Byte>, i: nat, x: Byte)
    requires |body| >= CHECKSUM_LEN && ValidChecksum(body)
    requires i < |body| && x != body[i]
    ensures Parse(c, body[i := x]) == Bad(CheckSumError)
  {
    var n, damaged := |body| - CHECKSUM_LEN, body[i := x];
    ValidChecksumIsSealed(body);
    ValidChecksumIsSealed(damaged);
    if i < n {
      assert damaged[..n] == body[..n][i := x] && damaged[n..] == body[n..];
      DetectsReplacement(body[..n], i, x);
      if ValidChecksum(damaged) {
        SealsDiffer(body[..n], damaged[..n]);
      }
    } else {
      assert damaged[..n] == body[..n];
    }
  }

  /** So is an exchange of two distinct neighbours within tag and payload. */
  lemma DetectsSwappedBytes<M>(c: Codec<M>, body: seq<Byte>, i: nat)
    requires |body| >= CHECKSUM_LEN && ValidChecksum(body)
    requires i + 1 < |body| - CHECKSUM_LEN && body[i] != body[i + 1]
    ensures Parse(c, Swapped(body, i)) == Bad(CheckSumError)
  {
    var n, damaged := |body| - CHECKSUM_LEN, Swapped(body, i);
    ValidChecksumIsSealed(body);
    ValidChecksumIsSealed(damaged);
    assert damaged[..n] == Swapped(body[..n], i) && damaged[n..] == body[n..];
    DetectsSwap(body[..n], i);
    if ValidChecksum(damaged) {
      SealsDiffer(body[..n], damaged[..n]);
    }
  }

  lemma DamagedBodyIsBad<M>(c: Codec<M>, m: M, i: nat, x: Byte)
    requires HEADER_LEN <= i < |Encode(c, m)| && x != Encode(c, m)[i]
    ensures Parse(c, Encode(c, m)[i := x][HEADER_LEN..]) == Bad(CheckSumError)
  {
    var f, covered := Encode(c, m), c.tag + c.serialize(m);
    var body := f[HEADER_LEN..];
    assert body == Sealed(covered);
    SealedIsValid(covered);
    assert f[i := x][HEADER_LEN..] == body[i - HEADER_LEN := x];
    DetectsDamagedByte(c, body, i - HEADER_LEN, x);
  }

  lemma FirstFrameDamaged<M(!new)>(c: Codec<M>, m: M, i: nat, x: Byte, rest: seq<Byte>)
    requires WellBehaved(c) && WithinLimit(c, m)
    requires HEADER_LEN <= i < |Encode(c, m)| && x != Encode(c, m)[i]
    requires c.accept(Encode(c, m)[i := x])
    ensures var damaged := Encode(c, m)[i := x] + rest;
            Receive(c, damaged) == Outcome([], damaged, Error(CheckSumError))
  {
    var f, n := Encode(c, m), |Encode(c, m)|;
    var damaged := f[i := x] + rest;
    assert damaged[..HEADER_LEN] == f[..HEADER_LEN];
    HeadOfFrame(c, m, damaged);
    DamagedBodyIsBad(c, m, i, x);
    assert damaged[..n] == f[i := x] && damaged[HEADER_LEN..n] == f[i := x][HEADER_LEN..];
    ReceiveBad(c, damaged, n, CheckSumError);
  }

  /**
   On the wire: after any messages sent intact, a frame with one damaged byte behind its length
   field stops the stream there. Nothing of it or after it is delivered, and nothing is consumed.
   */
  lemma DamagedFrameStops<M(!new)>(
      c: Codec<M>, ms: seq<M>, m: M, i: nat, x: Byte, rest: seq<Byte>)
    requires WellBehaved(c) && AllSendable(c, ms) && WithinLimit(c, m)
    requires HEADER_LEN <= i < |Encode(c, m)| && x != Encode(c, m)[i]
    requires c.accept(Encode(c, m)[i := x])
    ensures var damaged := Encode(c, m)[i := x] + rest;
            Receive(c, EncodeAll(c, ms) + damaged) == Outcome(ms, damaged, Error(CheckSumError))
  {
    var damaged := Encode(c, m)[i := x] + rest;
    FirstFrameDamaged(c, m, i, x, rest);
    ReceiveWhole(c, ms, damaged);
    NothingMore(c, damaged, Error(CheckSumError), ms);
  }
}
