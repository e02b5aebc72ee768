/** Optional values, as an optional result or a field that may be unset. */
module Options {
  datatype Option<+T> = None | Some(value: T)
}

/**
 Buffered Go channels as values.  The operations are total: an operation that would panic
 (a send on a closed channel, a second close) or block for ever (a send on a full channel whose
 sender holds the lock its receiver needs) leaves the channel as it was and counts a fault.
 A protocol is safe when no channel of any run has a fault.
 */
module Channels {
  import opened Options

  datatype Chan<T> = Chan(cap: nat, buffer: seq<T>, closed: bool, sends: nat, faults: nat)

  function Make<T>(cap: nat): Chan<T> {
    Chan(cap, [], false, 0, 0)
  }

  function Put<T>(c: Chan<T>, v: T): Chan<T> {
    if c.closed || |c.buffer| >= c.cap
    then c.(faults := c.faults + 1)
    else c.(buffer := c.buffer + [v], sends := c.sends + 1)
  }

  function Shut<T>(c: Chan<T>): Chan<T> {
    if c.closed then c.(faults := c.faults + 1) else c.(closed := true)
  }

  /** A receive does not block: there is a value, or the channel is closed. */
  predicate Ready<T>(c: Chan<T>) {
    c.closed || |c.buffer| > 0
  }

  /** What a receive yields; None is the zero value of a drained, closed channel. */
  function Front<T>(c: Chan<T>): Option<T> {
    if |c.buffer| > 0 then Some(c.buffer[0]) else None
  }

  function Take<T>(c: Chan<T>): Chan<T> {
    if |c.buffer| > 0 then c.(buffer := c.buffer[1..]) else c
  }
}
