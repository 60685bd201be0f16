/** The read half of a connection. */
module Transports {
  import opened Common

  /** A read takes some bytes, at least one while any are left and at most `limit`; which
      number is up to the transport. */
  class Transport {
    var unread: Bytes
    /** Whether a read has failed. */
    ghost var broken: bool

    constructor (stream: Bytes)
      ensures unread == stream && !broken
    {
      unread, broken := stream, false;
    }

    method Read(limit: nat) returns (r: Result<Bytes, ()>)
      requires limit > 0
      modifies this
      ensures r.Ok? ==> old(unread) == r.value + unread && |r.value| <= limit
      ensures r.Ok? ==> (r.value == [] <==> old(unread) == [])
      ensures r.Err? ==> unread == old(unread)
      ensures broken == (old(broken) || r.Err?)
    {
      if unread == [] {
        return Ok([]);
      }
      var fails: bool := *;
      if fails {
        broken := true;
        return Err(());
      }
      var n: nat :| 1 <= n <= limit && n <= |unread|;
      r := Ok(unread[..n]);
      unread := unread[n..];
    }
  }
}
