/**
 The byte buffer of libel/net/buffer.h: one block of storage with a reader index and a writer
 index, which compacts or grows when an append does not fit. Every operation is proved against
 the plain byte sequence `Contents()` between the two indices.
 */
module Buffers {
  import opened Bytes

  const CHEAP_PREPEND: nat := 8
  const INITIAL_SIZE: nat := 1024
  const EXTRA_BUF: nat := 65536
  const CR: Byte := 13
  const LF: Byte := 10

  predicate CrlfAt(s: seq<Byte>, i: int) {
    0 <= i && i + 2 <= |s| && s[i] == CR && s[i + 1] == LF
  }

  /** The first CR LF. */
  function FirstCrlf(s: seq<Byte>): (pos: Option<nat>)
    ensures pos.Some? ==> CrlfAt(s, pos.value)
    ensures forall j :: 0 <= j < (if pos.Some? then pos.value else |s|) ==> !CrlfAt(s, j)
  {
    if |s| < 2 then None
    else if CrlfAt(s, 0) then Some(0)
    else
      var rest := FirstCrlf(s[1..]);
      assert forall j :: 0 < j ==> (CrlfAt(s, j) <==> CrlfAt(s[1..], j - 1));
      if rest.Some? then Some(rest.value + 1) else None
  }

  lemma FirstCrlfIs(s: seq<Byte>, pos: Option<nat>)
    requires pos.Some? ==> CrlfAt(s, pos.value)
    requires forall j :: 0 <= j < (if pos.Some? then pos.value else |s|) ==> !CrlfAt(s, j)
    ensures pos == FirstCrlf(s)
  {
    var first := FirstCrlf(s);
    if first.Some? && pos.Some? {
      assert !(first.value < pos.value) && !(pos.value < first.value);
    }
  }

  /** What the system call `readv` reports: an error, or the bytes it scattered. */
  datatype ReadvResult = ReadError(errno: int) | ReadBytes(bytes: seq<Byte>)

  class Buffer {
    var data: seq<Byte>
    var readerIndex: nat
    var writerIndex: nat

    ghost predicate Valid()
      reads this
    {
      CHEAP_PREPEND <= |data| && readerIndex <= writerIndex <= |data|
    }

    function Contents(): (s: seq<Byte>)
      requires Valid()
      reads this
    {
      data[readerIndex..writerIndex]
    }

    function ReadableBytes(): (n: nat)
      requires Valid()
      reads this
      ensures n == |Contents()|
    {
      writerIndex - readerIndex
    }

    function WritableBytes(): nat
      requires Valid()
      reads this
    {
      |data| - writerIndex
    }

    constructor (initialSize: nat := INITIAL_SIZE)
      ensures Valid() && Contents() == []
      ensures readerIndex == CHEAP_PREPEND && |data| == CHEAP_PREPEND + initialSize
    {
      data := seq(CHEAP_PREPEND + initialSize, _ => 0);
      readerIndex, writerIndex := CHEAP_PREPEND, CHEAP_PREPEND;
    }

    /** The first CR LF in the contents, as an offset from the reader index. */
    method FindCRLF() returns (pos: Option<nat>)
      requires Valid()
      ensures pos == FirstCrlf(Contents())
    {
      var s := Contents();
      for i := 0 to |s|
        invariant forall j :: 0 <= j < i ==> !CrlfAt(s, j)
      {
        if CrlfAt(s, i) {
          FirstCrlfIs(s, Some(i));
          return Some(i);
        }
      }
      FirstCrlfIs(s, None);
      return None;
    }

    method RetrieveAll()
      requires Valid()
      modifies this`readerIndex, this`writerIndex
      ensures Valid() && Contents() == [] && readerIndex == CHEAP_PREPEND
    {
      readerIndex, writerIndex := CHEAP_PREPEND, CHEAP_PREPEND;
    }

    method Retrieve(len: nat)
      requires Valid() && len <= |Contents()|
      modifies this`readerIndex, this`writerIndex
      ensures Valid() && Contents() == old(Contents()[len..])
      ensures readerIndex == if len < old(|Contents()|) then old(readerIndex) + len else CHEAP_PREPEND
    {
      if len < ReadableBytes() {
        readerIndex := readerIndex + len;
      } else {
        RetrieveAll();
      }
    }

    method RetrieveAsString(len: nat) returns (s: seq<Byte>)
      requires Valid() && len <= |Contents()|
      modifies this`readerIndex, this`writerIndex
      ensures Valid() && s + Contents() == old(Contents()) && |s| == len
    {
      s := data[readerIndex..readerIndex + len];
      Retrieve(len);
    }

    method Unwrite(len: nat)
      requires Valid() && len <= |Contents()|
      modifies this`writerIndex
      ensures Valid() && Contents() == old(Contents()[..|Contents()| - len])
    {
      writerIndex := writerIndex - len;
    }

    /** A caller filling the writable area through `beginWrite()`; no index moves. */
    method WriteInPlace(bytes: seq<Byte>)
      requires Valid() && |bytes| <= WritableBytes()
      modifies this`data
      ensures Valid() && data == Splice(old(data), writerIndex, bytes)
    {
      data := Splice(data, writerIndex, bytes);
    }

    method HasWritten(len: nat)
      requires Valid() && len <= WritableBytes()
      modifies this`writerIndex
      ensures Valid() && Contents() == old(Contents() + data[writerIndex..writerIndex + len])
      ensures writerIndex == old(writerIndex) + len
    {
      writerIndex := writerIndex + len;
    }

    /**
     Grows the storage or moves the contents down. The assertion in the second branch is the
     source's own: compaction only ever starts from a reader index above the cheap prepend.
     */
    method MakeSpace(len: nat)
      requires Valid() && WritableBytes() < len
      modifies this
      ensures Valid() && Contents() == old(Contents()) && WritableBytes() >= len
      ensures readerIndex == old(readerIndex) || readerIndex == CHEAP_PREPEND < old(readerIndex)
      ensures |data| == if readerIndex == old(readerIndex) then old(writerIndex) + len else old(|data|)
      ensures |data| <= Max(old(|data|), 2 * len + |Contents()| + CHEAP_PREPEND - 1)
    {
      if WritableBytes() + readerIndex < len + CHEAP_PREPEND {
        data := data + seq(writerIndex + len - |data|, _ => 0);
      } else {
        assert CHEAP_PREPEND < readerIndex;
        var readable := ReadableBytes();
        var content := Contents();
        data := Splice(data, CHEAP_PREPEND, content);
        readerIndex := CHEAP_PREPEND;
        writerIndex := readerIndex + readable;
        assert Contents() == content;
      }
    }

    method EnsureWritableBytes(len: nat)
      requires Valid()
      modifies this
      ensures Valid() && Contents() == old(Contents()) && WritableBytes() >= len
      ensures readerIndex == old(readerIndex) || readerIndex == CHEAP_PREPEND < old(readerIndex)
      ensures |data| <= Max(old(|data|), 2 * len + |Contents()| + CHEAP_PREPEND - 1)
      ensures |data| == old(|data|) || |data| == old(writerIndex) + len
      ensures old(WritableBytes()) >= len ==> unchanged(this)
    {
      if WritableBytes() < len {
        MakeSpace(len);
      }
    }

    method Append(bytes: seq<Byte>)
      requires Valid()
      modifies this
      ensures Valid() && Contents() == old(Contents()) + bytes
      ensures readerIndex == old(readerIndex) || readerIndex == CHEAP_PREPEND < old(readerIndex)
      ensures |data| <= Max(old(|data|), 2 * |bytes| + old(|Contents()|) + CHEAP_PREPEND - 1)
      ensures |data| == old(|data|) || |data| == old(writerIndex) + |bytes|
      ensures old(WritableBytes()) >= |bytes| ==> readerIndex == old(readerIndex) && |data| == old(|data|)
    {
      EnsureWritableBytes(|bytes|);
      WriteInPlace(bytes);
      HasWritten(|bytes|);
    }

    /** `appendInt8` to `appendInt64`, by width in bytes. */
    method AppendInt(width: nat, val: int)
      requires Valid() && Fits(width, val)
      modifies this
      ensures Valid() && Contents() == old(Contents()) + EncodeInt(width, val)
      ensures readerIndex == old(readerIndex) || readerIndex == CHEAP_PREPEND < old(readerIndex)
    {
      Append(EncodeInt(width, val));
    }

    method PeekInt(width: nat) returns (val: int)
      requires Valid() && width <= |Contents()|
      ensures Fits(width, val) && EncodeInt(width, val) == Contents()[..width]
    {
      var bytes := data[readerIndex..readerIndex + width];
      val := DecodeInt(bytes);
      BytesRoundTrip(bytes);
      assert bytes == Contents()[..width];
    }

    method ReadInt(width: nat) returns (val: int)
      requires Valid() && width <= |Contents()|
      modifies this`readerIndex, this`writerIndex
      ensures Valid() && Fits(width, val)
      ensures EncodeInt(width, val) + Contents() == old(Contents())
    {
      val := PeekInt(width);
      Retrieve(width);
    }

    method Prepend(bytes: seq<Byte>)
      requires Valid() && |bytes| <= readerIndex
      modifies this
      ensures Valid() && Contents() == bytes + old(Contents())
      ensures readerIndex == old(readerIndex) - |bytes| && |data| == old(|data|)
    {
      ghost var before := Contents();
      readerIndex := readerIndex - |bytes|;
      data := Splice(data, readerIndex, bytes);
      ghost var mid := readerIndex + |bytes|;
      assert data[mid..writerIndex] == data[mid..][..writerIndex - mid] == before;
      assert Contents() == data[readerIndex..mid] + data[mid..writerIndex];
    }

    method PrependInt(width: nat, val: int)
      requires Valid() && Fits(width, val) && width <= readerIndex
      modifies this
      ensures Valid() && Contents() == EncodeInt(width, val) + old(Contents())
    {
      Prepend(EncodeInt(width, val));
    }

    /** Swaps in a fresh buffer sized for the contents and `reserve` more bytes. */
    method Shrink(reserve: nat)
      requires Valid()
      modifies this
      ensures Valid() && Contents() == old(Contents()) && WritableBytes() >= reserve
      ensures readerIndex == CHEAP_PREPEND
      ensures |data| == CHEAP_PREPEND + Max(INITIAL_SIZE, |Contents()| + reserve)
    {
      var other := new Buffer();
      if other.WritableBytes() < ReadableBytes() + reserve {
        other.MakeSpace(ReadableBytes() + reserve);
      }
      other.Append(Contents());
      data, readerIndex, writerIndex := other.data, other.readerIndex, other.writerIndex;
    }

    /** How many bytes the one or two areas handed to `readv` can take. */
    function ReadvCapacity(): nat
      requires Valid()
      reads this
    {
      WritableBytes() + if WritableBytes() < EXTRA_BUF then EXTRA_BUF else 0
    }

    /** The scatter read: the tail that does not fit goes through the extra area and is appended. */
    method ReadFd(result: ReadvResult) returns (n: int, savedErrno: int)
      requires Valid()
      requires result.ReadBytes? ==> |result.bytes| <= ReadvCapacity()
      modifies this
      ensures Valid()
      ensures result.ReadBytes? ==> n == |result.bytes| && Contents() == old(Contents()) + result.bytes
      ensures result.ReadError? ==> n < 0 && savedErrno == result.errno && unchanged(this)
      ensures |data| <= old(|data|) + EXTRA_BUF
    {
      savedErrno := 0;
      match result {
        case ReadError(errno) =>
          n, savedErrno := -1, errno;
        case ReadBytes(bytes) =>
          ghost var before := Contents();
          n := |bytes|;
          var writable := WritableBytes();
          var direct := Min(n, writable);
          WriteInPlace(bytes[..direct]);
          if n <= writable {
            assert bytes[..direct] == bytes;
            HasWritten(n);
          } else {
            writerIndex := |data|;
            assert Contents() == before + bytes[..writable];
            Append(bytes[writable..]);
            assert bytes[..writable] + bytes[writable..] == bytes;
          }
      }
    }
  }

  /** One call on a buffer, as its user sees it. */
  datatype Op =
    | OpAppend(bytes: seq<Byte>)
    | OpPrepend(bytes: seq<Byte>)
    | OpRetrieve(len: nat)
    | OpUnwrite(len: nat)
    | OpShrink(reserve: nat)
    | OpReadFd(result: ReadvResult)

  /** What the call does to a plain byte sequence; `None` when the sequence is too short for it. */
  function OnSequence(s: seq<Byte>, op: Op): Option<seq<Byte>> {
    match op
    case OpAppend(bytes) => Some(s + bytes)
    case OpPrepend(bytes) => Some(bytes + s)
    case OpRetrieve(len) => if len <= |s| then Some(s[len..]) else None
    case OpUnwrite(len) => if len <= |s| then Some(s[..|s| - len]) else None
    case OpShrink(_) => Some(s)
    case OpReadFd(result) => Some(if result.ReadBytes? then s + result.bytes else s)
  }

  /** The plain sequence after a whole run. */
  function RunOnSequence(s: seq<Byte>, ops: seq<Op>): Option<seq<Byte>> {
    if ops == [] then Some(s)
    else
      var before := RunOnSequence(s, ops[..|ops| - 1]);
      if before.None? then None else OnSequence(before.value, ops[|ops| - 1])
  }

  /** Only appends (of at most `most` bytes, to at most `held` bytes), prepends, retrieves and unwrites. */
  predicate ModestRun(s: seq<Byte>, ops: seq<Op>, most: nat, held: nat) {
    ops == [] ||
    (var before := RunOnSequence(s, ops[..|ops| - 1]);
     ModestRun(s, ops[..|ops| - 1], most, held) &&
     match ops[|ops| - 1]
     case OpAppend(bytes) => before.Some? ==> |bytes| <= most && |before.value| <= held
     case OpShrink(_) => false
     case OpReadFd(_) => false
     case _ => true)
  }

  /** The condition the source leaves to its callers: its own assertions and the contract of `readv`. */
  predicate Allowed(b: Buffer, op: Op)
    requires b.Valid()
    reads b
  {
    match op
    case OpAppend(_) => true
    case OpPrepend(bytes) => |bytes| <= b.readerIndex
    case OpRetrieve(len) => len <= |b.Contents()|
    case OpUnwrite(len) => len <= |b.Contents()|
    case OpShrink(_) => true
    case OpReadFd(result) => result.ReadBytes? ==> |result.bytes| <= b.ReadvCapacity()
  }

  method Perform(b: Buffer, op: Op)
    requires b.Valid() && Allowed(b, op)
    modifies b
    ensures b.Valid() && OnSequence(old(b.Contents()), op) == Some(b.Contents())
    ensures op.OpAppend? ==>
      |b.data| <= Max(old(|b.data|), 2 * |op.bytes| + old(|b.Contents()|) + CHEAP_PREPEND - 1)
    ensures op.OpPrepend? || op.OpRetrieve? || op.OpUnwrite? ==> |b.data| == old(|b.data|)
  {
    match op {
      case OpAppend(bytes) => b.Append(bytes);
      case OpPrepend(bytes) => b.Prepend(bytes);
      case OpRetrieve(len) => b.Retrieve(len);
      case OpUnwrite(len) => b.Unwrite(len);
      case OpShrink(reserve) => b.Shrink(reserve);
      case OpReadFd(result) => var _, _ := b.ReadFd(result);
    }
  }

  /**
   Any run of calls refines the same run on a plain byte sequence, as long as the source's own
   assertions let it continue; and the storage stays within a bound that does not grow with the
   length of the run.
   */
  method Run(b: Buffer, ops: seq<Op>) returns (done: nat)
    requires b.Valid()
    modifies b
    ensures b.Valid() && done <= |ops|
    ensures RunOnSequence(old(b.Contents()), ops[..done]) == Some(b.Contents())
    ensures done < |ops| ==> !Allowed(b, ops[done])
    ensures forall most: nat, held: nat :: ModestRun(old(b.Contents()), ops[..done], most, held) ==>
      |b.data| <= Max(old(|b.data|), 2 * most + held + CHEAP_PREPEND - 1)
  {
    ghost var s, size := b.Contents(), |b.data|;
    done := 0;
    while done < |ops| && Allowed(b, ops[done])
      invariant b.Valid() && done <= |ops|
      invariant RunOnSequence(s, ops[..done]) == Some(b.Contents())
      invariant forall most: nat, held: nat :: ModestRun(s, ops[..done], most, held) ==>
        |b.data| <= Max(size, 2 * most + held + CHEAP_PREPEND - 1)
    {
      Perform(b, ops[done]);
      assert ops[..done + 1][..done] == ops[..done];
      done := done + 1;
    }
  }
}
