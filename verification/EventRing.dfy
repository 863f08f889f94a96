/** The circular buffer of input events that every sensor driver reads from. */
module EventRing {

  datatype Kind = Abs | Syn | Led | Unknown(number: int)

  /** `struct input_event`, with its `timeval` as seconds and microseconds. */
  datatype InputEvent = InputEvent(kind: Kind, code: int, value: int, sec: int, usec: int) {
    function Nanos(): int {
      sec * 1_000_000_000 + usec * 1000
    }
  }

  /** What `read` on the device did: an error, a byte count that tears an event apart, or whole events. */
  datatype ReadResult = Failed(errno: nat) | Torn(stored: seq<InputEvent>) | Complete(events: seq<InputEvent>)

  const EINVAL := 22

  /** `read` stores no more than it was asked for. */
  predicate Fits(r: ReadResult, room: nat) {
    match r
    case Failed(errno) => errno > 0
    case Torn(stored) => |stored| <= room
    case Complete(events) => |events| <= room
  }

  /** The events that a `fill` with this much room takes over. */
  function Accepted(r: ReadResult, room: nat): seq<InputEvent> {
    if room > 0 && r.Complete? then r.events else []
  }

  function FillStatus(r: ReadResult, room: nat): int {
    if room == 0 then 0
    else match r
      case Failed(errno) => -(errno as int)
      case Torn(_) => -EINVAL
      case Complete(events) => |events|
  }

  function Slot(n: nat, curr: nat, i: nat): int {
    if curr + i < n then curr + i else curr + i - n
  }

  /** The `used` slots from `curr` on, wrapping at `n`. */
  ghost function Unread(b: seq<InputEvent>, n: nat, curr: nat, used: nat): (s: seq<InputEvent>)
    requires |b| == 2 * n && used <= n && curr <= n
    ensures |s| == used
    ensures forall i :: 0 <= i < used ==> s[i] == b[Slot(n, curr, i)]
  {
    seq(used, i requires 0 <= i < used => b[Slot(n, curr, i)])
  }

  /** New events stored in front of the end come after the old ones, wrapped or not. */
  lemma StoredInPlace(b: seq<InputEvent>, n: nat, curr: nat, used: nat, head: nat, k: nat)
    requires |b| == 2 * n && curr < n && used + k <= n && head + k <= n && k > 0
    requires head == curr + used || head + n == curr + used
    ensures Unread(b, n, curr, used + k) == Unread(b, n, curr, used) + b[head..head + k]
  {
  }

  /** Events stored across the end are found at the front once they are copied back. */
  lemma CopiedBack(was: seq<InputEvent>, b: seq<InputEvent>, n: nat, curr: nat, used: nat, head: nat, k: nat)
    requires |was| == |b| == 2 * n && curr < n && used + k <= n && head <= n < head + k
    requires head == curr + used || (head == n && curr == 0 && used == 0)
    requires forall i {:trigger b[i]} :: 0 <= i < 2 * n ==> b[i] == was[if i < head + k - n then n + i else i]
    ensures Unread(b, n, curr, used + k) == Unread(was, n, curr, used) + was[head..head + k]
  {
  }

  class InputEventCircularReader {
    const numEvents: nat
    const buffer: array<InputEvent>
    var head: nat
    var curr: nat
    var freeSpace: nat

    /** Slots `[0, numEvents)` hold the queue; the other half only catches a read that runs past the end. */
    ghost predicate Valid()
      reads this
    {
      && buffer.Length == 2 * numEvents
      && freeSpace <= numEvents && head <= numEvents
      && (if numEvents == 0 then curr == 0 else curr < numEvents)
      && (|| head == curr + Used()
          || head + numEvents == curr + Used()
          || (head == numEvents && curr == 0 && Used() == 0))
    }

    ghost function Used(): int
      reads this
    {
      numEvents - freeSpace
    }

    /** The unread events, oldest first. */
    ghost function Contents(): (s: seq<InputEvent>)
      requires Valid()
      reads this, buffer
      ensures |s| + freeSpace == numEvents
    {
      Unread(buffer[..], numEvents, curr, Used())
    }

    constructor (n: nat)
      ensures Valid() && Contents() == [] && numEvents == n && fresh(buffer)
    {
      numEvents := n;
      buffer := new InputEvent[n * 2];
      head, curr, freeSpace := 0, 0, n;
    }

    /** `read` into the slots from `head` on. */
    method Store(events: seq<InputEvent>)
      requires Valid() && |events| <= freeSpace
      modifies buffer
      ensures Contents() == old(Contents())
      ensures buffer[head..head + |events|] == events
      ensures forall i :: 0 <= i < buffer.Length && !(head <= i < head + |events|) ==> buffer[i] == old(buffer[i])
    {
      forall i | 0 <= i < |events| {
        buffer[head + i] := events[i];
      }
    }

    /** Appends what the device delivers; an error, or a full buffer, leaves the queue as it was. */
    method Fill(r: ReadResult) returns (status: int)
      requires Valid() && Fits(r, freeSpace)
      modifies this, buffer
      ensures Valid()
      ensures Contents() == old(Contents()) + Accepted(r, old(freeSpace))
      ensures status == FillStatus(r, old(freeSpace))
      ensures old(freeSpace) == 0 ==> status == 0 && Contents() == old(Contents())
      ensures old(freeSpace) > 0 ==>
                match r
                case Failed(errno) => status == -(errno as int) && Contents() == old(Contents())
                case Torn(_) => status == -EINVAL && Contents() == old(Contents())
                case Complete(events) => status == |events| && Contents() == old(Contents()) + events
    {
      if freeSpace == 0 {
        return 0;
      }
      match r {
        case Failed(errno) =>
          return -(errno as int);
        case Torn(stored) =>
          Store(stored);
          return -EINVAL;
        case Complete(events) =>
          Store(events);
          if events != [] {
            Commit(|events|);
          }
          return |events|;
      }
    }

    /** `memcpy` of the `s` events behind the end to the front. */
    method CopyBack(s: nat)
      requires buffer.Length == 2 * numEvents && s <= numEvents
      modifies buffer
      ensures forall i {:trigger buffer[i]} :: 0 <= i < buffer.Length ==>
                buffer[i] == old(buffer[if i < s then numEvents + i else i])
    {
      forall i | 0 <= i < s {
        buffer[i] := buffer[numEvents + i];
      }
    }

    /** Takes over `k` freshly stored events, copying those behind the end back to the front. */
    method Commit(k: nat)
      requires Valid() && 0 < k <= freeSpace
      modifies this, buffer
      ensures Valid()
      ensures freeSpace == old(freeSpace) - k
      ensures Contents() == old(Contents()) + old(buffer[head..head + k])
    {
      ghost var was, used, at := buffer[..], Used(), head;
      head := head + k;
      freeSpace := freeSpace - k;
      if head > numEvents {
        Wrap(was, used, at, k);
      } else {
        StoredInPlace(was, numEvents, curr, used, at, k);
      }
    }

    /** The head has passed the end: what lies behind it is copied to the front. */
    method Wrap(ghost was: seq<InputEvent>, ghost used: nat, ghost at: nat, k: nat)
      requires was == buffer[..] && |was| == 2 * numEvents && used == Used() - k && 0 < k && at + k == head
      requires numEvents < head && freeSpace + used + k == numEvents && curr < numEvents
      requires at <= numEvents && (at == curr + used || (at == numEvents && curr == 0 && used == 0))
      modifies `head, buffer
      ensures Valid()
      ensures Contents() == Unread(was, numEvents, curr, used) + was[at..at + k]
    {
      var s := head - numEvents;
      CopyBack(s);
      head := s;
      CopiedBack(was, buffer[..], numEvents, curr, used, at, k);
    }

    /** `at` is where the caller finds the event; it points nowhere useful when nothing is available. */
    method ReadEvent() returns (available: int, at: nat)
      requires Valid()
      ensures at == curr
      ensures available == if Contents() == [] then 0 else 1
      ensures available == 1 ==> at < buffer.Length && buffer[at] == Contents()[0]
    {
      at := curr;
      available := if numEvents - freeSpace != 0 then 1 else 0;
    }

    method Next()
      requires Valid() && Contents() != []
      modifies this
      ensures Valid() && Contents() == old(Contents())[1..]
    {
      curr := curr + 1;
      freeSpace := freeSpace + 1;
      if curr >= numEvents {
        curr := 0;
      }
    }
  }
}
