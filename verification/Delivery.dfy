/** From the codec of one end, through its connection and any cut of the stream, to the other codec. */
module Delivery {
  import opened Bytes
  import opened Sequences
  import FrameCodec
  import Tcp = TcpOutput

  lemma {:induction false} AllFramesAreWhole<M>(c: FrameCodec.Codec<M>, ms: seq<M>)
    ensures FrameCodec.WholeFrames(c, ms, |FrameCodec.EncodeAll(c, ms)|) == |ms|
  {
    if ms == [] {
    } else {
      AllFramesAreWhole(c, ms[1..]);
    }
  }

  /** A whole encoded stream, in any chunks, is delivered whole. */
  lemma WholeStream<M(!new)>(c: FrameCodec.Codec<M>, ms: seq<M>, chunks: seq<seq<Byte>>)
    requires FrameCodec.WellBehaved(c) && FrameCodec.AllSendable(c, ms)
    requires Flatten(chunks) == FrameCodec.EncodeAll(c, ms)
    ensures FrameCodec.ReceiveAll(c, chunks) == FrameCodec.Outcome(ms, [], FrameCodec.Waiting)
  {
    var p := Flatten(chunks);
    AllFramesAreWhole(c, ms);
    assert ms[..|ms|] == ms && p[|p|..] == [];
    FrameCodec.DeliversInOrder(c, ms, chunks);
  }

  lemma WireIsPrefix(evs: seq<Tcp.Event>)
    ensures Tcp.Run(Tcp.START, evs).conn.wire <= Tcp.Accepted(Tcp.START, evs)
  {
    Tcp.StreamConserved(Tcp.START, evs);
    assert [] + [] + Tcp.Accepted(Tcp.START, evs) == Tcp.Accepted(Tcp.START, evs);
  }

  /**
   A connection that has accepted the frames of `ms`, on any schedule and against any answers of the
   socket; some of what the socket took has arrived, in any chunks. Then messages are delivered in
   order, none changed and none twice, and the receiver waits for more.
   */
  lemma DeliversPrefix<M(!new)>(c: FrameCodec.Codec<M>, ms: seq<M>, evs: seq<Tcp.Event>, chunks: seq<seq<Byte>>)
    requires FrameCodec.WellBehaved(c) && FrameCodec.AllSendable(c, ms)
    requires Tcp.Accepted(Tcp.START, evs) == FrameCodec.EncodeAll(c, ms)
    requires Flatten(chunks) <= Tcp.Run(Tcp.START, evs).conn.wire
    ensures var r := FrameCodec.ReceiveAll(c, chunks); r.delivered <= ms && r.stop == FrameCodec.Waiting
  {
    WireIsPrefix(evs);
    FrameCodec.DeliversInOrder(c, ms, chunks);
  }

  /**
   Once the write half has been shut before `handleClose`, and everything has arrived: exactly the
   messages sent, and nothing left over.
   */
  lemma DeliversAll<M(!new)>(c: FrameCodec.Codec<M>, ms: seq<M>, evs: seq<Tcp.Event>, chunks: seq<seq<Byte>>)
    requires FrameCodec.WellBehaved(c) && FrameCodec.AllSendable(c, ms)
    requires Tcp.Accepted(Tcp.START, evs) == FrameCodec.EncodeAll(c, ms)
    requires var d := Tcp.Run(Tcp.START, evs).conn; d.shut && !d.closed && Flatten(chunks) == d.wire
    ensures FrameCodec.ReceiveAll(c, chunks) == FrameCodec.Outcome(ms, [], FrameCodec.Waiting)
  {
    Tcp.OutputDiscipline(evs);
    WholeStream(c, ms, chunks);
  }
}
