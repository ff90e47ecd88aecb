/**
 The tag comparison of libel/net/protobuf/ProtobufCodecLite.cpp and the end of the frame: for which
 tags it stays inside.
 */
module FrameTag {
  import opened Bytes
  import opened Adler32
  import opened FrameCodec

  lemma {:induction false} ShortSums(s: seq<Byte>)
    requires |s| <= 3
    ensures PlainA(s) <= 1 + 255 * |s| && PlainB(s) <= 766 * |s|
  {
    if s == [] {
    } else {
      ShortSums(s[..|s| - 1]);
    }
  }

  lemma {:induction false} LeadByte(s: seq<Byte>)
    requires s != []
    ensures s[0] * Pow256(|s| - 1) <= Value(s)
  {
    var n := |s| - 1;
    if n == 0 {
      assert s[..0] == [];
    } else {
      LeadByte(s[..n]);
      var p := Pow256(n - 1);
      assert s[0] * (256 * p) == 256 * (s[0] * p);
    }
  }

  lemma SmallStartsLow(x: nat)
    requires x < 9 * 0x100_0000
    ensures Int32Bytes(x)[0] <= 8
  {
    assert Pow256(3) == 0x100_0000;
    Int32BytesValue(x);
    LeadByte(Int32Bytes(x));
  }

  lemma ShortSealStartsLow(covered: seq<Byte>)
    requires |covered| <= 3
    ensures Int32Bytes(Checksum(covered))[0] <= 8
  {
    ShortSums(covered);
    SumsAreReduced(covered);
    SmallStartsLow(Checksum(covered));
  }

  /**
   Whatever frame of a length that `onMessage` lets through is too short for tag and checksum, it is
   long enough for the tag comparison and its sealed bytes do not begin with the tag.
   */
  predicate SafeTag<M>(c: Codec<M>) {
    forall n :: 0 <= n < |c.tag| && c.minLen <= n + CHECKSUM_LEN <= MAX_MESSAGE_LEN ==>
      |c.tag| <= n + CHECKSUM_LEN && !(c.tag <= Sealed(c.tag[..n]))
  }

  lemma SafeTagStays<M>(c: Codec<M>, body: seq<Byte>)
    requires ValidMinLen(c) && SafeTag(c) && c.minLen <= |body| <= MAX_MESSAGE_LEN
    ensures Parse(c, body) != OutsideFrame
  {
    var n := |body| - CHECKSUM_LEN;
    if n < |c.tag| {
      var start := c.tag[..n];
      assert |c.tag| <= |body|;
      ValidChecksumIsSealed(body);
      assert body[..|c.tag|] == c.tag ==> body[..n] == start;
    }
  }

  /** A frame that runs outside, for a tag that allows one. */
  lemma UnsafeTagEscapes<M>(c: Codec<M>) returns (body: seq<Byte>)
    requires ValidMinLen(c) && !SafeTag(c)
    ensures c.minLen <= |body| <= MAX_MESSAGE_LEN && Parse(c, body) == OutsideFrame
  {
    var n :| 0 <= n < |c.tag| && c.minLen <= n + CHECKSUM_LEN <= MAX_MESSAGE_LEN
             && (|c.tag| <= n + CHECKSUM_LEN ==> c.tag <= Sealed(c.tag[..n]));
    body := Sealed(c.tag[..n]);
    SealedIsValid(c.tag[..n]);
  }

  /** With a safe tag no byte stream makes `onMessage` look outside a frame. */
  lemma {:induction false} NeverEscapes<M>(c: Codec<M>, buf: seq<Byte>)
    requires ValidMinLen(c) && SafeTag(c)
    ensures Receive(c, buf).stop != Escaped
    decreases |buf|
  {
    var head := FirstFrame(c, buf);
    if !head.Frame? {
    } else {
      SafeTagStays(c, buf[HEADER_LEN..head.size]);
      NeverEscapes(c, buf[head.size..]);
    }
  }

  /** A body behind its own length, in the buffer of an accepting codec, reaches `parse`. */
  lemma BodyReachesParse<M>(c: Codec<M>, body: seq<Byte>)
    requires ValidMinLen(c) && c.minLen <= |body| <= MAX_MESSAGE_LEN
    requires c.accept(Int32Bytes(|body|) + body) && Parse(c, body) == OutsideFrame
    ensures Receive(c, Int32Bytes(|body|) + body).stop == Escaped
  {
    var buf := Int32Bytes(|body|) + body;
    Int32BytesRead(|body|);
    assert buf[..HEADER_LEN] == Int32Bytes(|body|);
    assert buf[..|buf|] == buf && buf[HEADER_LEN..|buf|] == body;
    assert FirstFrame(c, buf) == Frame(|buf|);
  }

  /**
   The minimum length that the constructor computes may leave the tag out. Without a raw-message
   callback, or with one that accepts everything, no byte stream makes `onMessage` compare or
   measure outside a frame if and only if the tag is safe; whether it is can be read off the tag.
   */
  lemma TagStaysInFrame<M>(c: Codec<M>)
    requires ValidMinLen(c) && forall frame: seq<Byte> :: c.accept(frame)
    ensures SafeTag(c) <==> forall buf: seq<Byte> :: Receive(c, buf).stop != Escaped
  {
    if SafeTag(c) {
      forall buf: seq<Byte>
        ensures Receive(c, buf).stop != Escaped
      {
        NeverEscapes(c, buf);
      }
    } else {
      var body := UnsafeTagEscapes(c);
      BodyReachesParse(c, body);
    }
  }

  /** Every tag longer than the checksum is unsafe when the minimum length leaves the tag out. */
  lemma LongTagIsUnsafe<M>(c: Codec<M>)
    requires c.minLen == CHECKSUM_LEN && |c.tag| > CHECKSUM_LEN
    ensures !SafeTag(c)
  {
    assert c.tag[..0] == [];
  }

  /** The tag of the RPC codec, like any four bytes above 8, is safe whatever the minimum length. */
  lemma RpcTagIsSafe<M>(c: Codec<M>)
    requires |c.tag| == 4 && forall i :: 0 <= i < 4 ==> c.tag[i] > 8
    ensures SafeTag(c)
  {
    forall n | 0 <= n < 4
      ensures !(c.tag <= Sealed(c.tag[..n]))
    {
      ShortSealStartsLow(c.tag[..n]);
      assert Sealed(c.tag[..n])[n] == Int32Bytes(Checksum(c.tag[..n]))[0];
    }
  }
}
