/**
 The two pollers of libel/net/poller, which keep the same interest map in different ways: a dense
 vector with swap-with-last removal and negated descriptors, and a kernel set driven through a
 three-state index.
 */
module Pollers {
  import opened Channels
  import opened Sequences

  // ---------- PollPoller ----------

  datatype PollFd = PollFd(fd: int, events: Mask, revents: int)

  /** A descriptor that `poll` is to ignore is stored as `-fd - 1`. */
  function Decoded(fd: int): nat {
    if fd < 0 then -fd - 1 else fd
  }

  /** What `poll` watches for through an entry. */
  function Visible(p: PollFd): Mask {
    if p.fd < 0 then NONE_EVENT else p.events
  }

  /** `index` is the `index_` field of every channel that has been registered at some time. */
  datatype Poll = Poll(pollfds: seq<PollFd>, channelMap: map<int, Channel>, index: map<Channel, int>)

  const NEW_POLL := Poll([], map[], map[])

  function IndexOf(index: map<Channel, int>, c: Channel): int {
    if c in index then index[c] else -1
  }

  predicate Registered(channelMap: map<int, Channel>, c: Channel) {
    c.fd in channelMap && channelMap[c.fd] == c
  }

  /** The assertions in `updateChannel`. */
  predicate PollUpdateHolds(s: Poll, c: Channel) {
    var i := IndexOf(s.index, c);
    if i < 0 then c.fd !in s.channelMap
    else Registered(s.channelMap, c) && i < |s.pollfds| && Decoded(s.pollfds[i].fd) == c.fd
  }

  function PollUpdated(s: Poll, c: Channel, mask: Mask): Poll
    requires PollUpdateHolds(s, c)
  {
    var i := IndexOf(s.index, c);
    if i < 0 then
      Poll(s.pollfds + [PollFd(c.fd, mask, 0)], s.channelMap[c.fd := c], s.index[c := |s.pollfds|])
    else
      s.(pollfds := s.pollfds[i := PollFd(if mask == NONE_EVENT then -1 - c.fd else c.fd, mask, 0)])
  }

  /** The assertions in `removeChannel`, and that the entry swapped in belongs to a known channel. */
  predicate PollRemoveHolds(s: Poll, c: Channel) {
    var i, last := IndexOf(s.index, c), |s.pollfds| - 1;
    && Registered(s.channelMap, c) && 0 <= i <= last
    && (i < last ==> Decoded(s.pollfds[last].fd) in s.channelMap - {c.fd})
  }

  function PollRemoved(s: Poll, c: Channel): Poll
    requires PollRemoveHolds(s, c)
  {
    var i, last, rest := IndexOf(s.index, c), |s.pollfds| - 1, s.channelMap - {c.fd};
    if i == last then Poll(s.pollfds[..last], rest, s.index)
    else
      var moved := rest[Decoded(s.pollfds[last].fd)];
      Poll(s.pollfds[i := s.pollfds[last]][..last], rest, s.index[moved := i])
  }

  /** Map, indices and vector are inverse to each other. */
  ghost predicate PollInv(s: Poll) {
    && (forall fd <- s.channelMap ::
          var c := s.channelMap[fd];
          c.fd == fd && c in s.index && 0 <= s.index[c] < |s.pollfds| && Decoded(s.pollfds[s.index[c]].fd) == fd)
    && (forall i :: 0 <= i < |s.pollfds| ==>
          var fd := Decoded(s.pollfds[i].fd);
          fd in s.channelMap && s.channelMap[fd] in s.index && s.index[s.channelMap[fd]] == i)
    && (forall c <- s.index :: s.index[c] >= 0)
  }

  lemma PollUpdateKeepsInv(s: Poll, c: Channel, mask: Mask)
    requires PollInv(s) && PollUpdateHolds(s, c)
    ensures PollInv(PollUpdated(s, c, mask))
  {
  }

  /**
   An update leaves no event of an earlier poll on the channel's entry, and hides the entry from poll
   exactly when it empties the mask of a channel already known; the other entries stay as they were.
   */
  lemma PollUpdateClears(s: Poll, c: Channel, mask: Mask, j: nat)
    requires PollInv(s) && PollUpdateHolds(s, c) && j < |PollUpdated(s, c, mask).pollfds|
    ensures var d := PollUpdated(s, c, mask);
            && c in d.index && Decoded(d.pollfds[j].fd) in d.channelMap
            && (j == d.index[c] ==>
                  && d.pollfds[j].revents == 0 && d.pollfds[j].events == mask
                  && (d.pollfds[j].fd < 0 <==> mask == NONE_EVENT && c.fd in s.channelMap))
            && (j != d.index[c] ==> j < |s.pollfds| && d.pollfds[j] == s.pollfds[j])
  {
    PollUpdateKeepsInv(s, c, mask);
  }

  lemma PollRemoveKeepsInv(s: Poll, c: Channel)
    requires PollInv(s) && Registered(s.channelMap, c)
    ensures PollRemoveHolds(s, c) && PollInv(PollRemoved(s, c))
  {
    var i, last := s.index[c], |s.pollfds| - 1;
    assert Decoded(s.pollfds[i].fd) == c.fd;
    var d := PollRemoved(s, c);
    forall j | 0 <= j < |d.pollfds|
      ensures var fd := Decoded(d.pollfds[j].fd);
              fd in d.channelMap && d.channelMap[fd] in d.index && d.index[d.channelMap[fd]] == j
    {
      var j0 := if j == i then last else j;
      assert d.pollfds[j] == s.pollfds[j0];
      assert s.index[s.channelMap[Decoded(s.pollfds[j0].fd)]] == j0;
    }
  }

  /**
   The update assertions hold exactly for channels that are registered, or that never were and
   whose descriptor is free. A channel that was removed keeps its index and cannot come back.
   */
  lemma PollUpdateExactly(s: Poll, c: Channel)
    requires PollInv(s)
    ensures PollUpdateHolds(s, c) <==>
            Registered(s.channelMap, c) || (c !in s.index && c.fd !in s.channelMap)
  {
  }

  lemma RemovedCannotReturn(s: Poll, c: Channel)
    requires PollInv(s) && Registered(s.channelMap, c)
    ensures PollRemoveHolds(s, c) && !PollUpdateHolds(PollRemoved(s, c), c)
  {
    PollRemoveKeepsInv(s, c);
  }

  function CountReady(pollfds: seq<PollFd>): nat {
    if pollfds == [] then 0
    else CountReady(pollfds[..|pollfds| - 1]) + if pollfds[|pollfds| - 1].revents > 0 then 1 else 0
  }

  predicate ReadyAreKnown(pollfds: seq<PollFd>, channelMap: map<int, Channel>) {
    forall i :: 0 <= i < |pollfds| && pollfds[i].revents > 0 ==> pollfds[i].fd in channelMap
  }

  /** What `poll` leaves behind: only watched entries are ready, and each belongs to its own channel. */
  predicate AnsweredFor(pollfds: seq<PollFd>, channelMap: map<int, Channel>) {
    && ReadyAreKnown(pollfds, channelMap)
    && (forall i, j :: 0 <= i < j < |pollfds| && pollfds[i].revents > 0 && pollfds[j].revents > 0 ==>
          channelMap[pollfds[i].fd] != channelMap[pollfds[j].fd])
  }

  function ReadyChannels(pollfds: seq<PollFd>, channelMap: map<int, Channel>): seq<Channel>
    requires ReadyAreKnown(pollfds, channelMap)
  {
    if pollfds == [] then []
    else
      var n := |pollfds| - 1;
      ReadyChannels(pollfds[..n], channelMap) + if pollfds[n].revents > 0 then [channelMap[pollfds[n].fd]] else []
  }

  lemma ReadyUpTo(pollfds: seq<PollFd>, channelMap: map<int, Channel>, i: nat)
    requires ReadyAreKnown(pollfds, channelMap) && i < |pollfds|
    ensures ReadyAreKnown(pollfds[..i], channelMap) && ReadyAreKnown(pollfds[..i + 1], channelMap)
    ensures var ready := pollfds[i].revents > 0;
            && CountReady(pollfds[..i + 1]) == CountReady(pollfds[..i]) + (if ready then 1 else 0)
            && ReadyChannels(pollfds[..i + 1], channelMap) ==
               ReadyChannels(pollfds[..i], channelMap) + (if ready then [channelMap[pollfds[i].fd]] else [])
  {
    assert pollfds[..i + 1][..i] == pollfds[..i];
  }

  lemma {:induction false} AsManyAsReady(pollfds: seq<PollFd>, channelMap: map<int, Channel>)
    requires ReadyAreKnown(pollfds, channelMap)
    ensures |ReadyChannels(pollfds, channelMap)| == CountReady(pollfds)
  {
    if pollfds == [] {
    } else {
      AsManyAsReady(pollfds[..|pollfds| - 1], channelMap);
    }
  }

  /** The ready channels of a longer front part begin with those of a shorter one. */
  lemma {:induction false} ReadyInFront(pollfds: seq<PollFd>, channelMap: map<int, Channel>, i: nat, k: nat)
    requires ReadyAreKnown(pollfds, channelMap) && i <= k <= |pollfds|
    ensures ReadyAreKnown(pollfds[..i], channelMap) && ReadyAreKnown(pollfds[..k], channelMap)
    ensures CountReady(pollfds[..i]) <= CountReady(pollfds[..k])
    ensures ReadyChannels(pollfds[..i], channelMap) <= ReadyChannels(pollfds[..k], channelMap)
    decreases k
  {
    if i == k {
    } else {
      ReadyInFront(pollfds, channelMap, i, k - 1);
      ReadyUpTo(pollfds, channelMap, k - 1);
    }
  }

  /** Where the loop of `fillActiveChannels` stops, it has seen the first `n` ready entries, or all. */
  lemma FrontIsEnough(pollfds: seq<PollFd>, channelMap: map<int, Channel>, i: nat, n: nat)
    requires ReadyAreKnown(pollfds, channelMap) && i <= |pollfds| && CountReady(pollfds[..i]) <= n
    requires i == |pollfds| || CountReady(pollfds[..i]) == n
    ensures ReadyAreKnown(pollfds[..i], channelMap)
    ensures ReadyChannels(pollfds[..i], channelMap) <= ReadyChannels(pollfds, channelMap)
    ensures |ReadyChannels(pollfds[..i], channelMap)| == if n < CountReady(pollfds) then n else CountReady(pollfds)
    ensures forall j :: i <= j < |pollfds| ==> CountReady(pollfds[..j]) >= n
  {
    ReadyInFront(pollfds, channelMap, i, |pollfds|);
    AsManyAsReady(pollfds[..i], channelMap);
    assert pollfds[..|pollfds|] == pollfds;
    forall j | i <= j < |pollfds|
      ensures CountReady(pollfds[..j]) >= n
    {
      ReadyInFront(pollfds, channelMap, i, j);
    }
  }

  class PollPoller {
    var pollfds: seq<PollFd>
    var channelMap: map<int, Channel>
    ghost var known: set<Channel>

    ghost function Abs(): Poll
      reads this, known
    {
      Poll(pollfds, channelMap, map c | c in known :: c.index)
    }

    constructor ()
      ensures Abs() == NEW_POLL && known == {}
    {
      pollfds, channelMap, known := [], map[], {};
    }

    method UpdateChannel(channel: Channel)
      requires PollUpdateHolds(Abs(), channel) && (channel !in known ==> channel.index == -1)
      modifies this, channel`index
      ensures Abs() == PollUpdated(old(Abs()), channel, channel.events)
      ensures known == old(known) + {channel}
    {
      ghost var before := Abs();
      if channel.index < 0 {
        var pfd := PollFd(channel.fd, channel.events, 0);
        var idx := |pollfds|;
        pollfds := pollfds + [pfd];
        channel.index := idx;
        channelMap := channelMap[pfd.fd := channel];
        known := known + {channel};
        assert Abs().index == before.index[channel := idx];
      } else {
        var idx := channel.index;
        assert pollfds[idx].fd == channel.fd || pollfds[idx].fd == -1 - channel.fd;
        var pfd := PollFd(channel.fd, channel.events, 0);
        if channel.events == NONE_EVENT {
          pfd := pfd.(fd := -1 - channel.fd);
        }
        pollfds := pollfds[idx := pfd];
      }
    }

    method RemoveChannel(channel: Channel)
      requires PollRemoveHolds(Abs(), channel) && channelMap.Values <= known
      requires channel.events == NONE_EVENT
      modifies this`pollfds, this`channelMap, known`index
      ensures Abs() == PollRemoved(old(Abs()), channel)
    {
      ghost var before := Abs();
      var idx := channel.index;
      channelMap := channelMap - {channel.fd};
      if idx == |pollfds| - 1 {
        pollfds := pollfds[..|pollfds| - 1];
      } else {
        var last := |pollfds| - 1;
        var fdAtEnd := pollfds[last].fd;
        pollfds := pollfds[idx := pollfds[last]][last := pollfds[idx]];
        if fdAtEnd < 0 {
          fdAtEnd := -fdAtEnd - 1;
        }
        var moved := channelMap[fdAtEnd];
        assert moved in before.channelMap.Values;
        moved.index := idx;
        pollfds := pollfds[..last];
        assert Abs().index == before.index[moved := idx];
      }
    }

    /** Collects the channels of the first `numOfEvents` ready entries. */
    method FillActiveChannels(numOfEvents: nat) returns (active: seq<Channel>)
      requires AnsweredFor(pollfds, channelMap)
      modifies channelMap.Values`revents
      ensures active <= ReadyChannels(pollfds, channelMap)
      ensures |active| == if numOfEvents < CountReady(pollfds) then numOfEvents else CountReady(pollfds)
      ensures forall i :: 0 <= i < |pollfds| && pollfds[i].revents > 0 && CountReady(pollfds[..i]) < numOfEvents ==>
        channelMap[pollfds[i].fd].revents == pollfds[i].revents
    {
      active := [];
      var left, i := numOfEvents, 0;
      while i < |pollfds| && left > 0
        invariant 0 <= i <= |pollfds| && 0 <= left <= numOfEvents
        invariant numOfEvents - left == CountReady(pollfds[..i])
        invariant ReadyAreKnown(pollfds[..i], channelMap)
        invariant active == ReadyChannels(pollfds[..i], channelMap)
        invariant forall j :: 0 <= j < i && pollfds[j].revents > 0 ==>
          channelMap[pollfds[j].fd].revents == pollfds[j].revents
      {
        ReadyUpTo(pollfds, channelMap, i);
        if pollfds[i].revents > 0 {
          left := left - 1;
          var channel := channelMap[pollfds[i].fd];
          assert channel in channelMap.Values;
          channel.revents := pollfds[i].revents;
          active := active + [channel];
        }
        i := i + 1;
      }
      FrontIsEnough(pollfds, channelMap, i, numOfEvents);
    }
  }

  /** `poll` fills in `revents` of watched entries and changes nothing else. */
  predicate PolledFrom(before: seq<PollFd>, after: seq<PollFd>) {
    && |after| == |before|
    && forall i :: 0 <= i < |after| ==>
         && after[i].fd == before[i].fd && after[i].events == before[i].events
         && after[i].revents >= 0 && (after[i].fd < 0 ==> after[i].revents == 0)
  }

  ghost predicate ReadyAt(pollfds: seq<PollFd>, channelMap: map<int, Channel>, c: Channel, i: int) {
    0 <= i < |pollfds| && pollfds[i].revents > 0 && pollfds[i].fd in channelMap && c == channelMap[pollfds[i].fd]
  }

  lemma {:induction false} ReadyIsListed(pollfds: seq<PollFd>, channelMap: map<int, Channel>, i: nat)
    requires ReadyAreKnown(pollfds, channelMap) && i < |pollfds| && pollfds[i].revents > 0
    ensures channelMap[pollfds[i].fd] in ReadyChannels(pollfds, channelMap)
  {
    var n := |pollfds| - 1;
    if i == n {
    } else {
      ReadyIsListed(pollfds[..n], channelMap, i);
    }
  }

  lemma {:induction false} ListedIsReady(pollfds: seq<PollFd>, channelMap: map<int, Channel>, c: Channel)
      returns (i: nat)
    requires ReadyAreKnown(pollfds, channelMap) && c in ReadyChannels(pollfds, channelMap)
    ensures ReadyAt(pollfds, channelMap, c, i)
  {
    var n := |pollfds| - 1;
    if c in ReadyChannels(pollfds[..n], channelMap) {
      i := ListedIsReady(pollfds[..n], channelMap, c);
    } else {
      i := n;
    }
  }

  lemma {:induction false} ListedOnce(pollfds: seq<PollFd>, channelMap: map<int, Channel>)
    requires AnsweredFor(pollfds, channelMap)
    ensures NoRepeats(ReadyChannels(pollfds, channelMap))
  {
    if pollfds == [] {
    } else {
      var n := |pollfds| - 1;
      var before := ReadyChannels(pollfds[..n], channelMap);
      ListedOnce(pollfds[..n], channelMap);
      if pollfds[n].revents > 0 && channelMap[pollfds[n].fd] in before {
        var i := ListedIsReady(pollfds[..n], channelMap, channelMap[pollfds[n].fd]);
        assert false;
      }
    }
  }

  /** Given the count that `poll` reports, every ready channel is returned, exactly once, and no other. */
  lemma ActiveExactlyOnce(s: Poll, polled: seq<PollFd>)
    requires PollInv(s) && PolledFrom(s.pollfds, polled)
    ensures AnsweredFor(polled, s.channelMap)
    ensures var active := ReadyChannels(polled, s.channelMap);
            && NoRepeats(active)
            && (forall c <- active :: Registered(s.channelMap, c))
            && (forall fd <- s.channelMap ::
                  var c := s.channelMap[fd]; c in active <==> polled[s.index[c]].revents > 0)
  {
    forall i | 0 <= i < |polled| && polled[i].revents > 0
      ensures polled[i].fd in s.channelMap && s.index[s.channelMap[polled[i].fd]] == i
    {
      assert Decoded(s.pollfds[i].fd) == polled[i].fd;
    }
    ListedOnce(polled, s.channelMap);
    var active := ReadyChannels(polled, s.channelMap);
    forall c | c in active
      ensures Registered(s.channelMap, c) && polled[s.index[c]].revents > 0
    {
      var i := ListedIsReady(polled, s.channelMap, c);
    }
    forall fd <- s.channelMap
      ensures var c := s.channelMap[fd]; c in active <==> polled[s.index[c]].revents > 0
    {
      var c := s.channelMap[fd];
      var i := s.index[c];
      assert Decoded(s.pollfds[i].fd) == fd && polled[i].fd == s.pollfds[i].fd;
      if polled[i].revents > 0 {
        ReadyIsListed(polled, s.channelMap, i);
      }
    }
  }

  // ---------- EpollPoller ----------

  const NEW: int := -1
  const ADDED: int := 1
  const DELETED: int := 2

  /** One entry of the kernel's interest set. */
  datatype Watch = Watch(mask: Mask, channel: Channel)

  datatype Epoll = Epoll(kernel: map<int, Watch>, channelMap: map<int, Channel>, index: map<Channel, int>)

  const NEW_EPOLL := Epoll(map[], map[], map[])

  datatype Ctl = CtlAdd | CtlMod | CtlDel

  /** The operations that the kernel accepts. */
  predicate CtlLegal(kernel: map<int, Watch>, op: Ctl, fd: int) {
    match op
    case CtlAdd => fd !in kernel
    case CtlMod => fd in kernel
    case CtlDel => fd in kernel
  }

  function CtlDone(kernel: map<int, Watch>, op: Ctl, c: Channel, mask: Mask): map<int, Watch> {
    if op == CtlDel then kernel - {c.fd} else kernel[c.fd := Watch(mask, c)]
  }

  /** The operation that `updateChannel` issues. */
  function UpdateOp(s: Epoll, c: Channel, mask: Mask): Ctl {
    if IndexOf(s.index, c) != ADDED then CtlAdd else if mask == NONE_EVENT then CtlDel else CtlMod
  }

  /** The assertions in `updateChannel`. */
  predicate EpollUpdateHolds(s: Epoll, c: Channel) {
    var i := IndexOf(s.index, c);
    if i == NEW then c.fd !in s.channelMap
    else Registered(s.channelMap, c) && (i == ADDED || i == DELETED)
  }

  function EpollUpdated(s: Epoll, c: Channel, mask: Mask): Epoll
    requires EpollUpdateHolds(s, c)
  {
    var op := UpdateOp(s, c, mask);
    Epoll(
      CtlDone(s.kernel, op, c, mask),
      s.channelMap[c.fd := c],
      s.index[c := if op == CtlDel then DELETED else ADDED])
  }

  function EpollRemoved(s: Epoll, c: Channel): Epoll
    requires Registered(s.channelMap, c)
  {
    Epoll(
      if IndexOf(s.index, c) == ADDED then CtlDone(s.kernel, CtlDel, c, NONE_EVENT) else s.kernel,
      s.channelMap - {c.fd},
      s.index[c := NEW])
  }

  /** The index tells whether the kernel watches the channel. */
  ghost predicate EpollInv(s: Epoll) {
    && (forall fd <- s.channelMap ::
          var c := s.channelMap[fd];
          && c.fd == fd && c in s.index && (s.index[c] == ADDED || s.index[c] == DELETED)
          && (s.index[c] == ADDED <==> fd in s.kernel))
    && (forall fd <- s.kernel :: fd in s.channelMap && s.kernel[fd].channel == s.channelMap[fd])
    && (forall c <- s.index :: s.index[c] != NEW ==> Registered(s.channelMap, c))
  }

  /** Only legal operations are issued, and every operation keeps the index truthful. */
  lemma EpollUpdateLegal(s: Epoll, c: Channel, mask: Mask)
    requires EpollInv(s) && EpollUpdateHolds(s, c)
    ensures CtlLegal(s.kernel, UpdateOp(s, c, mask), c.fd)
    ensures EpollInv(EpollUpdated(s, c, mask))
  {
  }

  /**
   After an update the kernel watches the channel with its mask, also with an empty one, unless the
   update emptied the mask of a channel it was watching; other descriptors are not touched.
   */
  lemma EpollWatchesExactly(s: Epoll, c: Channel, mask: Mask, fd: int)
    requires EpollInv(s) && EpollUpdateHolds(s, c)
    ensures var d := EpollUpdated(s, c, mask).kernel;
            && (c.fd in d <==> mask != NONE_EVENT || c.fd !in s.kernel)
            && (c.fd in d ==> d[c.fd] == Watch(mask, c))
            && (fd != c.fd ==> (fd in d <==> fd in s.kernel) && (fd in d ==> d[fd] == s.kernel[fd]))
  {
  }

  /** A channel removed from this poller can be registered again. */
  lemma EpollRemovedCanReturn(s: Epoll, c: Channel)
    requires EpollInv(s) && Registered(s.channelMap, c)
    ensures EpollUpdateHolds(EpollRemoved(s, c), c) && c.fd !in EpollRemoved(s, c).kernel
  {
    EpollRemoveLegal(s, c);
  }

  lemma EpollRemoveLegal(s: Epoll, c: Channel)
    requires EpollInv(s) && Registered(s.channelMap, c)
    ensures IndexOf(s.index, c) == ADDED ==> CtlLegal(s.kernel, CtlDel, c.fd)
    ensures EpollInv(EpollRemoved(s, c))
  {
  }

  class EpollPoller {
    var kernel: map<int, Watch>
    var channelMap: map<int, Channel>
    ghost var known: set<Channel>

    ghost function Abs(): Epoll
      reads this, known
    {
      Epoll(kernel, channelMap, map c | c in known :: c.index)
    }

    constructor ()
      ensures Abs() == NEW_EPOLL && known == {}
    {
      kernel, channelMap, known := map[], map[], {};
    }

    /** `epoll_ctl`; the precondition is what the kernel would refuse. */
    method Update(operation: Ctl, channel: Channel)
      requires CtlLegal(kernel, operation, channel.fd)
      modifies this`kernel
      ensures kernel == CtlDone(old(kernel), operation, channel, channel.events)
    {
      match operation {
        case CtlAdd => kernel := kernel[channel.fd := Watch(channel.events, channel)];
        case CtlMod => kernel := kernel[channel.fd := Watch(channel.events, channel)];
        case CtlDel => kernel := kernel - {channel.fd};
      }
    }

    method UpdateChannel(channel: Channel)
      requires EpollUpdateHolds(Abs(), channel) && (channel !in known ==> channel.index == NEW)
      requires CtlLegal(kernel, UpdateOp(Abs(), channel, channel.events), channel.fd)
      modifies this, channel`index
      ensures Abs() == EpollUpdated(old(Abs()), channel, channel.events)
      ensures known == old(known) + {channel}
    {
      ghost var before := Abs();
      var index := channel.index;
      if index == NEW || index == DELETED {
        if index == NEW {
          channelMap := channelMap[channel.fd := channel];
        }
        channel.index := ADDED;
        Update(CtlAdd, channel);
      } else {
        if channel.events == NONE_EVENT {
          Update(CtlDel, channel);
          channel.index := DELETED;
        } else {
          Update(CtlMod, channel);
        }
      }
      known := known + {channel};
      assert channelMap == before.channelMap[channel.fd := channel];
      assert Abs().index == before.index[channel := channel.index];
    }

    method RemoveChannel(channel: Channel)
      requires Registered(channelMap, channel) && channel in known && channel.events == NONE_EVENT
      requires channel.index == ADDED ==> CtlLegal(kernel, CtlDel, channel.fd)
      modifies this`kernel, this`channelMap, channel`index
      ensures Abs() == EpollRemoved(old(Abs()), channel)
    {
      ghost var before := Abs();
      var index := channel.index;
      channelMap := channelMap - {channel.fd};
      if index == ADDED {
        Update(CtlDel, channel);
      }
      channel.index := NEW;
      assert Abs().index == before.index[channel := NEW];
    }
  }

  // ---------- One interest map, two pollers ----------

  datatype Event = Update(c: Channel, change: Change) | Remove(c: Channel)

  /** The same channels driven into both pollers. */
  datatype World = World(masks: map<Channel, Mask>, poll: Poll, epoll: Epoll)

  const START := World(map[], NEW_POLL, NEW_EPOLL)

  function MaskOf(masks: map<Channel, Mask>, c: Channel): Mask {
    if c in masks then masks[c] else NONE_EVENT
  }

  /** What the source asks of its callers. */
  predicate Allowed(w: World, ev: Event) {
    match ev
    case Update(c, _) =>
      Registered(w.poll.channelMap, c) || (c !in w.poll.index && c.fd !in w.poll.channelMap)
    case Remove(c) => Registered(w.poll.channelMap, c) && MaskOf(w.masks, c) == NONE_EVENT
  }

  function KernelMask(s: Epoll, fd: int): Mask {
    if fd in s.kernel then s.kernel[fd].mask else NONE_EVENT
  }

  /** The mask that `poll` is asked to watch a descriptor for. */
  function PollMask(s: Poll, fd: int): Mask {
    if fd !in s.channelMap then NONE_EVENT
    else
      var i := IndexOf(s.index, s.channelMap[fd]);
      if 0 <= i < |s.pollfds| then Visible(s.pollfds[i]) else NONE_EVENT
  }

  predicate SameMask(w: World, fd: int)
    requires fd in w.poll.channelMap
  {
    PollMask(w.poll, fd) == KernelMask(w.epoll, fd) == MaskOf(w.masks, w.poll.channelMap[fd])
  }

  ghost predicate Agree(w: World) {
    && PollInv(w.poll) && EpollInv(w.epoll)
    && w.epoll.channelMap == w.poll.channelMap && w.epoll.index.Keys == w.poll.index.Keys
    && (forall fd <- w.poll.channelMap :: SameMask(w, fd))
  }

  /** The source's assertions hold for both pollers, so that the step is defined. */
  predicate AssertionsHold(w: World, ev: Event) {
    match ev
    case Update(c, _) => PollUpdateHolds(w.poll, c) && EpollUpdateHolds(w.epoll, c)
    case Remove(c) => PollRemoveHolds(w.poll, c) && Registered(w.epoll.channelMap, c)
  }

  lemma AllowedMeetsAssertions(w: World, ev: Event)
    requires Agree(w) && Allowed(w, ev)
    ensures AssertionsHold(w, ev)
  {
    PollUpdateExactly(w.poll, ev.c);
    if ev.Remove? {
      PollRemoveKeepsInv(w.poll, ev.c);
    }
  }

  function Step(w: World, ev: Event): World
    requires AssertionsHold(w, ev)
  {
    match ev
    case Update(c, change) =>
      var mask := Changed(MaskOf(w.masks, c), change);
      World(w.masks[c := mask], PollUpdated(w.poll, c, mask), EpollUpdated(w.epoll, c, mask))
    case Remove(c) => World(w.masks, PollRemoved(w.poll, c), EpollRemoved(w.epoll, c))
  }

  /** After an update `poll` watches the channel's descriptor for its mask, and the others as before. */
  lemma PollUpdateMasks(s: Poll, c: Channel, mask: Mask, fd: int)
    requires PollInv(s) && PollUpdateHolds(s, c) && fd in PollUpdated(s, c, mask).channelMap
    ensures PollInv(PollUpdated(s, c, mask))
    ensures PollMask(PollUpdated(s, c, mask), fd) == if fd == c.fd then mask else PollMask(s, fd)
  {
    PollUpdateKeepsInv(s, c, mask);
    var d := PollUpdated(s, c, mask);
    if fd != c.fd {
      assert d.channelMap[fd] == s.channelMap[fd] != c;
    }
  }

  lemma EpollUpdateMasks(s: Epoll, c: Channel, mask: Mask, fd: int)
    requires EpollInv(s) && EpollUpdateHolds(s, c)
    ensures KernelMask(EpollUpdated(s, c, mask), fd) == if fd == c.fd then mask else KernelMask(s, fd)
  {
  }

  lemma PollRemoveMasks(s: Poll, c: Channel, fd: int)
    requires PollInv(s) && Registered(s.channelMap, c) && PollRemoveHolds(s, c)
    ensures PollMask(PollRemoved(s, c), fd) == if fd == c.fd then NONE_EVENT else PollMask(s, fd)
  {
    PollRemoveKeepsInv(s, c);
    var d := PollRemoved(s, c);
    if fd in d.channelMap {
      var e := d.channelMap[fd];
      assert e == s.channelMap[fd] && fd != c.fd;
      assert d.pollfds[d.index[e]] == s.pollfds[s.index[e]];
    }
  }

  lemma EpollRemoveMasks(s: Epoll, c: Channel, fd: int)
    requires EpollInv(s) && Registered(s.channelMap, c)
    ensures KernelMask(EpollRemoved(s, c), fd) == if fd == c.fd then NONE_EVENT else KernelMask(s, fd)
  {
  }

  lemma UpdateKeepsMask(w: World, c: Channel, change: Change, fd: int)
    requires Agree(w) && AssertionsHold(w, Update(c, change))
    requires fd in Step(w, Update(c, change)).poll.channelMap
    ensures SameMask(Step(w, Update(c, change)), fd)
  {
    var mask := Changed(MaskOf(w.masks, c), change);
    PollUpdateMasks(w.poll, c, mask, fd);
    EpollUpdateMasks(w.epoll, c, mask, fd);
    assert fd != c.fd ==> SameMask(w, fd);
  }

  lemma UpdateKeepsMaps(w: World, c: Channel, change: Change)
    requires Agree(w) && AssertionsHold(w, Update(c, change))
    ensures var d := Step(w, Update(c, change));
            d.epoll.channelMap == d.poll.channelMap && d.epoll.index.Keys == d.poll.index.Keys
  {
    if IndexOf(w.poll.index, c) >= 0 {
      assert w.poll.channelMap[c.fd := c] == w.poll.channelMap;
    }
  }

  lemma UpdateKeepsAgreement(w: World, c: Channel, change: Change)
    requires Agree(w) && AssertionsHold(w, Update(c, change))
    ensures Agree(Step(w, Update(c, change)))
  {
    var d := Step(w, Update(c, change));
    var mask := Changed(MaskOf(w.masks, c), change);
    PollUpdateKeepsInv(w.poll, c, mask);
    EpollUpdateLegal(w.epoll, c, mask);
    UpdateKeepsMaps(w, c, change);
    forall fd <- d.poll.channelMap
      ensures SameMask(d, fd)
    {
      UpdateKeepsMask(w, c, change, fd);
    }
  }

  lemma RemoveKeepsMask(w: World, c: Channel, fd: int)
    requires Agree(w) && AssertionsHold(w, Remove(c))
    requires fd in Step(w, Remove(c)).poll.channelMap
    ensures SameMask(Step(w, Remove(c)), fd)
  {
    PollRemoveMasks(w.poll, c, fd);
    EpollRemoveMasks(w.epoll, c, fd);
    assert SameMask(w, fd);
  }

  lemma RemoveKeepsAgreement(w: World, c: Channel)
    requires Agree(w) && AssertionsHold(w, Remove(c))
    ensures Agree(Step(w, Remove(c)))
  {
    var d := Step(w, Remove(c));
    PollRemoveKeepsInv(w.poll, c);
    EpollRemoveLegal(w.epoll, c);
    forall fd <- d.poll.channelMap
      ensures SameMask(d, fd)
    {
      RemoveKeepsMask(w, c, fd);
    }
  }

  /** Every call up to here was one that the source allows, in the state it was made in. */
  ghost predicate AllowedRun(w: World, evs: seq<Event>)
    decreases |evs|
  {
    evs == [] ||
    (Allowed(w, evs[0]) && (AssertionsHold(w, evs[0]) ==> AllowedRun(Step(w, evs[0]), evs[1..])))
  }

  /** The state after the run, as far as assertions hold. */
  function Run(w: World, evs: seq<Event>): World
    decreases |evs|
  {
    if evs == [] || !AssertionsHold(w, evs[0]) then w else Run(Step(w, evs[0]), evs[1..])
  }

  predicate CtlIssuedLegal(s: Epoll, ev: Event, masks: map<Channel, Mask>) {
    match ev
    case Update(c, change) => CtlLegal(s.kernel, UpdateOp(s, c, Changed(MaskOf(masks, c), change)), c.fd)
    case Remove(c) => IndexOf(s.index, c) == ADDED ==> CtlLegal(s.kernel, CtlDel, c.fd)
  }

  /** No assertion of either poller fails, and no illegal `epoll_ctl` is issued. */
  ghost predicate Smooth(w: World, evs: seq<Event>)
    decreases |evs|
  {
    evs == [] ||
    (&& AssertionsHold(w, evs[0])
     && CtlIssuedLegal(w.epoll, evs[0], w.masks)
     && Smooth(Step(w, evs[0]), evs[1..]))
  }

  lemma StepAgrees(w: World, ev: Event)
    requires Agree(w) && Allowed(w, ev)
    ensures AssertionsHold(w, ev) && CtlIssuedLegal(w.epoll, ev, w.masks) && Agree(Step(w, ev))
  {
    AllowedMeetsAssertions(w, ev);
    match ev {
      case Update(c, change) =>
        EpollUpdateLegal(w.epoll, c, Changed(MaskOf(w.masks, c), change));
        UpdateKeepsAgreement(w, c, change);
      case Remove(c) =>
        EpollRemoveLegal(w.epoll, c);
        RemoveKeepsAgreement(w, c);
    }
  }

  lemma {:induction false} RunAgrees(w: World, evs: seq<Event>)
    requires Agree(w) && AllowedRun(w, evs)
    ensures Smooth(w, evs) && Agree(Run(w, evs))
    decreases |evs|
  {
    if evs == [] {
    } else {
      StepAgrees(w, evs[0]);
      RunAgrees(Step(w, evs[0]), evs[1..]);
    }
  }

  /**
   Over every run of mask changes and removals: both pollers' assertions hold, only legal
   `epoll_ctl` operations are issued, and for every descriptor the kernel set, the vector handed
   to `poll` and the registered channel name the same mask.
   */
  lemma PollersAgree(evs: seq<Event>)
    requires AllowedRun(START, evs)
    ensures Smooth(START, evs)
    ensures var w := Run(START, evs);
            && (forall fd: int :: KernelMask(w.epoll, fd) == PollMask(w.poll, fd))
            && (forall fd <- w.poll.channelMap ::
                  KernelMask(w.epoll, fd) == MaskOf(w.masks, w.poll.channelMap[fd]))
            && w.epoll.channelMap == w.poll.channelMap
            && PollInv(w.poll)
  {
    RunAgrees(START, evs);
    var w := Run(START, evs);
    forall fd: int
      ensures KernelMask(w.epoll, fd) == PollMask(w.poll, fd)
    {
      assert fd in w.poll.channelMap ==> SameMask(w, fd);
    }
    assert forall fd <- w.poll.channelMap :: SameMask(w, fd);
  }
}
