/** The event mask of libel/net/channel.h, and the fields of a channel that its poller uses. */
module Channels {

  /** A bit of the mask: POLLIN, POLLPRI or POLLOUT. */
  datatype Flag = In | Pri | Out

  type Mask = set<Flag>

  const NONE_EVENT: Mask := {}
  const READ_EVENT: Mask := {In, Pri}
  const WRITE_EVENT: Mask := {Out}

  predicate IsReading(mask: Mask) { mask * READ_EVENT != {} }
  predicate IsWriting(mask: Mask) { mask * WRITE_EVENT != {} }

  /** The calls on a channel that change its mask; each is followed by an update of the poller. */
  datatype Change = EnableReading | DisableReading | EnableWriting | DisableWriting | DisableAll

  function Changed(mask: Mask, change: Change): Mask {
    match change
    case EnableReading => mask + READ_EVENT
    case DisableReading => mask - READ_EVENT
    case EnableWriting => mask + WRITE_EVENT
    case DisableWriting => mask - WRITE_EVENT
    case DisableAll => NONE_EVENT
  }

  lemma InterestByFlag(mask: Mask)
    ensures IsReading(mask) <==> In in mask || Pri in mask
    ensures IsWriting(mask) <==> Out in mask
  {
    assert forall f :: f in mask * READ_EVENT <==> f in mask && (f == In || f == Pri);
    assert forall f :: f in mask * WRITE_EVENT <==> f in mask && f == Out;
  }

  /** Each change sets or clears exactly the flags of the interest it names. */
  lemma ChangeByFlag(mask: Mask, change: Change, flag: Flag)
    ensures flag in Changed(mask, change) <==>
            match change
            case EnableReading => flag in mask || flag == In || flag == Pri
            case DisableReading => flag in mask && flag == Out
            case EnableWriting => flag in mask || flag == Out
            case DisableWriting => flag in mask && flag != Out
            case DisableAll => false
  {
  }

  /** Each change sets the interest it names and leaves the other alone. */
  lemma ChangeIsPrecise(mask: Mask, change: Change)
    ensures IsReading(Changed(mask, change)) ==
            (change == EnableReading || (IsReading(mask) && change != DisableReading && change != DisableAll))
    ensures IsWriting(Changed(mask, change)) ==
            (change == EnableWriting || (IsWriting(mask) && change != DisableWriting && change != DisableAll))
  {
    InterestByFlag(mask);
    InterestByFlag(Changed(mask, change));
  }

  class Channel {
    const fd: nat
    var events: Mask
    var revents: int
    var index: int

    constructor (fd: nat)
      ensures this.fd == fd && events == NONE_EVENT && revents == 0 && index == -1
    {
      this.fd := fd;
      events, revents, index := NONE_EVENT, 0, -1;
    }

    /** `enableReading` to `disableAll`, without the call of the poller that follows. */
    method SetEvents(change: Change)
      modifies this`events
      ensures events == Changed(old(events), change)
    {
      match change {
        case EnableReading => events := events + READ_EVENT;
        case DisableReading => events := events - READ_EVENT;
        case EnableWriting => events := events + WRITE_EVENT;
        case DisableWriting => events := events - WRITE_EVENT;
        case DisableAll => events := NONE_EVENT;
      }
    }
  }
}
