/**
 A file descriptor whose write() may accept any part of the data, be interrupted, or fail.  What
 it will do is a finite script, the same for the program and for its specification; past its end
 every write fails.
 */
module Descriptors {

  datatype WriteResult =
    | Wrote(count: nat)       // accepts up to `count` bytes
    | Nothing(stale: bool)    // returns 0, with errno left at EINTR by an earlier call or not
    | Interrupted             // returns -1 with errno == EINTR
    | Failed                  // returns -1 with any other errno: EAGAIN, EIO, ...
  {
    /** The write made no progress for a reason that a retry will not cure. */
    predicate Stops() {
      Failed? || Nothing? || (Wrote? && count == 0)
    }
  }

  function Min(a: nat, b: nat): nat {
    if a <= b then a else b
  }

  /** What the next write of `len` bytes returns, as the caller sees it. */
  function Outcome(script: seq<WriteResult>, len: nat): WriteResult {
    if script == [] then Failed
    else if script[0].Wrote? then Wrote(Min(script[0].count, len))
    else script[0]
  }

  function Rest(script: seq<WriteResult>): seq<WriteResult> {
    if script == [] then [] else script[1..]
  }

  class Descriptor {
    var script: seq<WriteResult>
    var written: string

    constructor (script: seq<WriteResult>)
      ensures this.script == script && written == ""
    {
      this.script := script;
      written := "";
    }

    /** ::write: the data it accepts is a prefix of what it is given. */
    method Write(data: string) returns (r: WriteResult)
      modifies this
      ensures r == Outcome(old(script), |data|) && script == Rest(old(script))
      ensures written == old(written) + (if r.Wrote? then data[..r.count] else "")
    {
      if script == [] { return Failed; }
      r := script[0];
      script := script[1..];
      if r.Wrote? {
        r := Wrote(Min(r.count, |data|));
        written := written + data[..r.count];
      }
    }
  }
}
