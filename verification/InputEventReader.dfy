/** The doubled circular buffer of InputEventReader.cpp: 2 n slots, of which the upper n only
    catch reads that run over the end before they are copied down. */
module InputEventReader {

  datatype InputEvent = InputEvent(time: int, kind: int, code: nat, value: int)

  /** What `read` did: failed with an errno, delivered whole events, or delivered a byte count
      that is not a multiple of the event size, having written over these slots. */
  datatype ReadResult =
    | Failed(errno: int)
    | Fragment(written: seq<InputEvent>)
    | Got(events: seq<InputEvent>)

  const EINVAL := 22

  function Received(result: ReadResult): seq<InputEvent> {
    if result.Got? then result.events else []
  }

  /** The number of slots `read` touched. */
  function Touched(result: ReadResult): nat {
    match result
    case Failed(_) => 0
    case Fragment(w) => |w|
    case Got(es) => |es|
  }

  class CircularReader {
    const buffer: array<InputEvent>
    const bufferEnd: nat
    var head: nat
    var curr: nat
    var freeSpace: nat
    /** The events read and not yet consumed, oldest first. */
    ghost var unread: seq<InputEvent>

    ghost predicate Valid()
      reads this, buffer
    {
      && 0 < bufferEnd && buffer.Length == 2 * bufferEnd
      && curr < bufferEnd && head <= bufferEnd
      && |unread| + freeSpace == bufferEnd
      && HeadFits()
      && forall i: nat {:trigger unread[i]} :: i < |unread| ==> buffer[Slot(i)] == unread[i]
    }

    /** The next event goes right after the newest, modulo the capacity -- with the end
        itself standing for slot 0 as long as no read has run past it. */
    ghost predicate HeadFits()
      reads this
    {
      || head == curr + |unread|
      || head == curr + |unread| - bufferEnd
      || (head == bufferEnd && curr + |unread| == 0)
    }

    /** Where the i-th unread event is kept. */
    ghost function Slot(i: nat): nat
      reads this
    {
      if curr + i < bufferEnd then curr + i else curr + i - bufferEnd
    }

    constructor (numEvents: nat)
      requires numEvents > 0
      ensures Valid() && unread == [] && bufferEnd == numEvents && fresh(buffer)
    {
      buffer := new InputEvent[numEvents * 2](_ => InputEvent(0, 0, 0, 0));
      bufferEnd := numEvents;
      head, curr, freeSpace, unread := 0, 0, numEvents, [];
    }

    /** The kernel's side of `read(fd, mHead, ...)`. */
    method Store(events: seq<InputEvent>)
      requires Valid() && |events| <= freeSpace
      modifies buffer
      ensures Valid()
      ensures forall i: nat {:trigger events[i]} :: i < |events| ==> buffer[head + i] == events[i]
    {
      ghost var was := buffer[..];
      for k := 0 to |events|
        invariant forall i: nat {:trigger events[i]} :: i < k ==> buffer[head + i] == events[i]
        invariant forall p: nat :: p < buffer.Length && !(head <= p < head + k) ==> buffer[p] == was[p]
      {
        buffer[head + k] := events[k];
      }
    }

    /** `memcpy(mBuffer, mBufferEnd, s * sizeof(input_event))`. */
    method CopyDown(s: nat)
      requires s <= bufferEnd && buffer.Length == 2 * bufferEnd
      modifies buffer
      ensures forall p: nat :: p < s ==> buffer[p] == old(buffer[bufferEnd + p])
      ensures forall p: nat :: s <= p < buffer.Length ==> buffer[p] == old(buffer[p])
    {
      for k := 0 to s
        invariant forall p: nat :: p < k ==> buffer[p] == old(buffer[bufferEnd + p])
        invariant forall p: nat :: k <= p < buffer.Length ==> buffer[p] == old(buffer[p])
      {
        buffer[k] := buffer[bufferEnd + k];
      }
    }

    /** `fill`: asks for as many events as fit. With no free slot it does not read at all. */
    method Fill(result: ReadResult) returns (n: int)
      requires Valid() && Touched(result) <= freeSpace
      requires result.Failed? ==> result.errno > 0
      modifies this, buffer
      ensures Valid()
      ensures unread == old(unread) + if old(freeSpace) == 0 then [] else Received(result)
      ensures n == if old(freeSpace) == 0 then 0 else if result.Failed? then -result.errno
                   else if result.Fragment? then -EINVAL else |result.events|
    {
      if freeSpace == 0 {
        return 0;
      }
      match result {
        case Failed(errno) =>
          n := -errno;
        case Fragment(written) =>
          Store(written);
          n := -EINVAL;
        case Got(events) =>
          Store(events);
          n := |events|;
          if n > 0 {
            Advance(events);
          }
      }
    }

    /** The index updates after a read: a head that ran past the end is folded back. */
    method Advance(events: seq<InputEvent>)
      requires Valid() && 0 < |events| <= freeSpace
      requires forall i: nat {:trigger events[i]} :: i < |events| ==> buffer[head + i] == events[i]
      modifies this, buffer
      ensures Valid() && unread == old(unread) + events
    {
      ghost var was := unread;
      head := head + |events|;
      freeSpace := freeSpace - |events|;
      if head > bufferEnd {
        var s := head - bufferEnd;
        CopyDown(s);
        head := s;
      }
      unread := unread + events;
      forall i: nat {:trigger unread[i]} | i < |unread|
        ensures buffer[Slot(i)] == unread[i]
      {
        if i < |was| {
          assert unread[i] == was[i];
        } else {
          assert unread[i] == events[i - |was|];
        }
      }
    }

    /** `readEvent`: where the oldest event is, and whether there is one. */
    method ReadEvent() returns (available: int, at: nat)
      requires Valid()
      ensures available == if unread == [] then 0 else 1
      ensures available == 1 ==> at < buffer.Length && buffer[at] == unread[0]
    {
      at := curr;
      available := if bufferEnd - freeSpace != 0 then 1 else 0;
      if available == 1 {
        assert Slot(0) == curr;
      }
    }

    /** `next`, which the source calls only after `readEvent` found an event. */
    method Next()
      requires Valid() && unread != []
      modifies this
      ensures Valid() && unread == old(unread[1..])
    {
      ghost var was := unread;
      curr := curr + 1;
      freeSpace := freeSpace + 1;
      if curr >= bufferEnd {
        curr := 0;
      }
      unread := unread[1..];
      forall i: nat {:trigger unread[i]} | i < |unread|
        ensures buffer[Slot(i)] == unread[i]
      {
        assert unread[i] == was[i + 1];
      }
    }
  }
}
