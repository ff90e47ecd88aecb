/**
 What `parse` and `onMessage` of libel/net/protobuf/ProtobufCodecLite.cpp accept and why they refuse,
 said of the bytes alone.
 */
module FrameMeaning {
  import opened Bytes
  import opened Sequences
  import opened FrameCodec

  /** The bytes behind the length field carry the codec's tag, the payload `p` and their checksum. */
  ghost predicate CarriesPayload<M>(c: Codec<M>, body: seq<Byte>, p: seq<Byte>) {
    body == Sealed(c.tag + p)
  }

  lemma PayloadOf<M>(c: Codec<M>, p: seq<Byte>)
    ensures var body := Sealed(c.tag + p);
            && |body| == |c.tag| + |p| + CHECKSUM_LEN && ValidChecksum(body)
            && body[..|c.tag|] == c.tag && body[|c.tag|..|body| - CHECKSUM_LEN] == p
  {
    SealedIsValid(c.tag + p);
  }

  lemma PayloadThere<M>(c: Codec<M>, body: seq<Byte>)
    requires |body| >= |c.tag| + CHECKSUM_LEN && ValidChecksum(body) && body[..|c.tag|] == c.tag
    ensures CarriesPayload(c, body, body[|c.tag|..|body| - CHECKSUM_LEN])
  {
    var n := |body| - CHECKSUM_LEN;
    ValidChecksumIsSealed(body);
    assert body[..n] == c.tag + body[|c.tag|..n];
  }

  /** A message is parsed if and only if it is the meaning of the payload of a frame with the codec's tag. */
  lemma ParsesExactly<M>(c: Codec<M>, body: seq<Byte>, m: M)
    requires |body| >= CHECKSUM_LEN
    ensures Parse(c, body) == Good(m) <==> exists p :: CarriesPayload(c, body, p) && c.deserialize(p) == Some(m)
  {
    if Parse(c, body) == Good(m) {
      PayloadThere(c, body);
    }
    forall p | CarriesPayload(c, body, p)
      ensures Parse(c, body) == Good(m) <==> c.deserialize(p) == Some(m)
    {
      PayloadOf(c, p);
    }
  }

  /** And exactly these are the reasons for which one is refused. */
  lemma RefusesExactly<M>(c: Codec<M>, body: seq<Byte>)
    requires |body| >= CHECKSUM_LEN
    ensures Parse(c, body) == Bad(CheckSumError) <==> body != Sealed(body[..|body| - CHECKSUM_LEN])
    ensures Parse(c, body) == Bad(UnknownMessageType) <==>
            body == Sealed(body[..|body| - CHECKSUM_LEN]) && |c.tag| <= |body| && !(c.tag <= body)
    ensures Parse(c, body) == Bad(ParseError) <==> exists p :: CarriesPayload(c, body, p) && c.deserialize(p) == None
    ensures Parse(c, body) != Bad(InvalidLength)
  {
    ValidChecksumIsSealed(body);
    if Parse(c, body) == Bad(ParseError) {
      PayloadThere(c, body);
    }
    forall p | CarriesPayload(c, body, p)
      ensures Parse(c, body) == Bad(ParseError) <==> c.deserialize(p) == None
    {
      PayloadOf(c, p);
    }
  }

  /** A frame of a length that the receiver lets through. */
  predicate IsFrame<M>(c: Codec<M>, f: seq<Byte>) {
    && |f| >= HEADER_LEN + CHECKSUM_LEN && c.minLen <= |f| - HEADER_LEN <= MAX_MESSAGE_LEN
    && f[..HEADER_LEN] == Int32Bytes(|f| - HEADER_LEN)
  }

  /** The frames, one after the other: refused by the raw-message callback, or carrying the next message. */
  ghost predicate Understood<M>(c: Codec<M>, frames: seq<seq<Byte>>, ms: seq<M>)
    decreases |frames|
  {
    if frames == [] then ms == []
    else
      && IsFrame(c, frames[0])
      && if !c.accept(frames[0]) then Understood(c, frames[1..], ms)
         else
           && ms != []
           && (exists p :: CarriesPayload(c, frames[0][HEADER_LEN..], p) && c.deserialize(p) == Some(ms[0]))
           && Understood(c, frames[1..], ms[1..])
  }

  /** The length field announces a frame that the receiver lets through. */
  ghost predicate Announces<M>(c: Codec<M>, left: seq<Byte>, len: nat) {
    |left| >= HEADER_LEN && c.minLen <= len <= MAX_MESSAGE_LEN && left[..HEADER_LEN] == Int32Bytes(len)
  }

  ghost predicate StopsRightly<M>(c: Codec<M>, left: seq<Byte>, stop: Stop) {
    match stop
    case Waiting =>
      |left| < c.minLen + HEADER_LEN || exists len :: Announces(c, left, len) && |left| < HEADER_LEN + len
    case Error(InvalidLength) => |left| >= c.minLen + HEADER_LEN && forall len :: !Announces(c, left, len)
    case Error(code) =>
      exists len :: StopsAt(c, left, len) && Parse(c, left[HEADER_LEN..HEADER_LEN + len]) == Bad(code)
    case Escaped => exists len :: StopsAt(c, left, len) && Parse(c, left[HEADER_LEN..HEADER_LEN + len]) == OutsideFrame
  }

  /** A whole frame is in front and was not refused by the raw-message callback. */
  ghost predicate StopsAt<M>(c: Codec<M>, left: seq<Byte>, len: nat) {
    && Announces(c, left, len) && CHECKSUM_LEN <= len && HEADER_LEN + len <= |left|
    && c.accept(left[..HEADER_LEN + len])
  }

  lemma LengthIs(s: seq<Byte>, len: nat)
    requires |s| == HEADER_LEN && len < 0x8000_0000
    ensures DecodeInt(s) == len <==> s == Int32Bytes(len)
  {
    Int32BytesRead(len);
    if DecodeInt(s) == len {
      DecodeIntInjective(s, Int32Bytes(len));
    }
  }

  lemma HeadSays<M>(c: Codec<M>, buf: seq<Byte>)
    requires ValidMinLen(c)
    ensures var h := FirstFrame(c, buf);
            && (h == NeedMore ==> StopsRightly(c, buf, Waiting))
            && (h == BadLength ==> StopsRightly(c, buf, Error(InvalidLength)))
            && (h.Frame? ==> Announces(c, buf, h.size - HEADER_LEN) && IsFrame(c, buf[..h.size]))
  {
    if |buf| >= c.minLen + HEADER_LEN {
      var len := DecodeInt(buf[..HEADER_LEN]);
      if c.minLen <= len <= MAX_MESSAGE_LEN {
        LengthIs(buf[..HEADER_LEN], len);
        assert Announces(c, buf, len);
        if |buf| >= HEADER_LEN + len {
          assert buf[..HEADER_LEN + len][..HEADER_LEN] == buf[..HEADER_LEN];
        }
      } else {
        forall other: nat | c.minLen <= other <= MAX_MESSAGE_LEN
          ensures buf[..HEADER_LEN] != Int32Bytes(other)
        {
          LengthIs(buf[..HEADER_LEN], other);
        }
      }
    }
  }

  lemma StopsThere<M>(c: Codec<M>, buf: seq<Byte>)
    requires ValidMinLen(c) && FirstFrame(c, buf).Frame? && c.accept(buf[..FirstFrame(c, buf).size])
    ensures var parsed := Parse(c, buf[HEADER_LEN..FirstFrame(c, buf).size]);
            && (parsed.Bad? ==> StopsRightly(c, buf, Error(parsed.code)))
            && (parsed == OutsideFrame ==> StopsRightly(c, buf, Escaped))
  {
    var n := FirstFrame(c, buf).size;
    HeadSays(c, buf);
    RefusesExactly(c, buf[HEADER_LEN..n]);
    assert StopsAt(c, buf, n - HEADER_LEN);
  }

  /**
   What was consumed is frames of admissible length, each refused by the raw-message callback or
   carrying the codec's tag, a valid checksum and the next message delivered; and the receiver
   stopped in front of what is left for the reason it gives.
   */
  ghost predicate Explains<M>(c: Codec<M>, buf: seq<Byte>, frames: seq<seq<Byte>>, r: Outcome<M>) {
    buf == Flatten(frames) + r.left && Understood(c, frames, r.delivered) && StopsRightly(c, r.left, r.stop)
  }

  ghost predicate Explained<M>(c: Codec<M>, buf: seq<Byte>, r: Outcome<M>) {
    exists frames :: Explains(c, buf, frames, r)
  }

  lemma StopExplained<M>(c: Codec<M>, buf: seq<Byte>, stop: Stop)
    requires StopsRightly(c, buf, stop)
    ensures Explained(c, buf, Outcome([], buf, stop))
  {
    assert Flatten([]) + buf == buf;
    assert Explains(c, buf, [], Outcome([], buf, stop));
  }

  lemma FlattenFirst(f: seq<Byte>, rest: seq<Byte>, frames: seq<seq<Byte>>, left: seq<Byte>)
    requires rest == Flatten(frames) + left
    ensures f + rest == Flatten([f] + frames) + left
  {
    assert ([f] + frames)[1..] == frames;
    Associates(f, Flatten(frames), left);
  }

  lemma SkipExplained<M>(c: Codec<M>, f: seq<Byte>, rest: seq<Byte>, r: Outcome<M>)
    requires IsFrame(c, f) && !c.accept(f) && Explained(c, rest, r)
    ensures Explained(c, f + rest, r)
  {
    var frames :| Explains(c, rest, frames, r);
    FlattenFirst(f, rest, frames, r.left);
    assert ([f] + frames)[1..] == frames;
    assert Explains(c, f + rest, [f] + frames, r);
  }

  lemma MessageExplained<M>(c: Codec<M>, f: seq<Byte>, m: M, rest: seq<Byte>, r: Outcome<M>)
    requires IsFrame(c, f) && c.accept(f) && Parse(c, f[HEADER_LEN..]) == Good(m) && Explained(c, rest, r)
    ensures Explained(c, f + rest, r.Preceded([m]))
  {
    var frames :| Explains(c, rest, frames, r);
    FlattenFirst(f, rest, frames, r.left);
    assert ([f] + frames)[1..] == frames && ([m] + r.delivered)[1..] == r.delivered;
    ParsesExactly(c, f[HEADER_LEN..], m);
    assert Explains(c, f + rest, [f] + frames, r.Preceded([m]));
  }

  /** Every byte stream whatever is explained in this way. */
  lemma {:induction false} DeliversOnlyFrames<M>(c: Codec<M>, buf: seq<Byte>)
    requires ValidMinLen(c)
    ensures Explained(c, buf, Receive(c, buf))
    decreases |buf|
  {
    var head := FirstFrame(c, buf);
    HeadSays(c, buf);
    if !head.Frame? {
      StopExplained(c, buf, if head == NeedMore then Waiting else Error(InvalidLength));
      return;
    }
    var f, rest := buf[..head.size], buf[head.size..];
    assert f[HEADER_LEN..] == buf[HEADER_LEN..head.size] && f + rest == buf;
    var parsed := Parse(c, f[HEADER_LEN..]);
    if c.accept(f) && !parsed.Good? {
      StopsThere(c, buf);
      StopExplained(c, buf, if parsed.Bad? then Error(parsed.code) else Escaped);
      return;
    }
    DeliversOnlyFrames(c, rest);
    if c.accept(f) {
      MessageExplained(c, f, parsed.message, rest, Receive(c, rest));
    } else {
      SkipExplained(c, f, rest, Receive(c, rest));
    }
  }
}
