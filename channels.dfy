/**
 * A buffered Go channel used by one goroutine at a time: a bounded FIFO with
 * a capacity fixed at creation (make(chan T, n)) and a closed flag.
 */
module Channels {
  import opened Wrappers

  class Channel<T> {
    /** the buffered values, oldest first */
    var buf: seq<T>
    const capacity: nat
    var closed: bool

    ghost predicate Valid()
      reads this
    {
      |buf| <= capacity
    }

    constructor (capacity: nat)
      ensures Valid() && this.capacity == capacity && buf == [] && !closed
    {
      this.capacity := capacity;
      buf := [];
      closed := false;
    }

    /**
     * A send inside 'select { case ch <- x: ... default: ... }': it succeeds
     * exactly when there is room, and never waits. Sending on a closed channel
     * panics in Go, so callers must not.
     */
    method TrySend(x: T) returns (ok: bool)
      requires Valid() && !closed
      modifies this
      ensures Valid()
      ensures ok <==> |old(buf)| < capacity
      ensures buf == if ok then old(buf) + [x] else old(buf)
      ensures closed == old(closed)
    {
      ok := |buf| < capacity;
      if ok {
        buf := buf + [x];
      }
    }

    /**
     * 'v, ok := <-ch' when it does not block: the oldest value if there is one,
     * None once the channel is closed and empty. An open empty channel would
     * block the receiver, so callers only receive when it would not.
     */
    method Receive() returns (v: Option<T>)
      requires Valid() && (buf != [] || closed)
      modifies this
      ensures Valid()
      ensures old(buf) != [] ==> v == Some(old(buf)[0]) && buf == old(buf)[1..]
      ensures old(buf) == [] ==> v == None && buf == []
      ensures closed == old(closed)
    {
      if buf != [] {
        v := Some(buf[0]);
        buf := buf[1..];
      } else {
        v := None;
      }
    }

    /** close(ch): closing twice panics in Go. The buffered values stay receivable. */
    method Close()
      requires Valid() && !closed
      modifies this
      ensures Valid() && closed && buf == old(buf)
    {
      closed := true;
    }
  }
}
