/** Byte streams between processes, as the system calls move them. */
module Sockets {
  import opened Words

  /** A connected socket.  Any call may move fewer bytes than asked; a reliable one fails only to read
      past the end of what the peer sent. */
  class Socket {
    const reliable: bool
    var incoming: seq<Byte>
    var outgoing: seq<Byte>

    constructor (reliable: bool, incoming: seq<Byte>)
      ensures this.reliable == reliable && this.incoming == incoming && outgoing == []
    {
      this.reliable, this.incoming, outgoing := reliable, incoming, [];
    }

    method Recv(n: nat) returns (chunk: seq<Byte>)
      requires n > 0
      modifies this`incoming
      ensures |chunk| <= n && old(incoming) == chunk + incoming
      ensures chunk == [] ==> incoming == [] || !reliable
    {
      var fault: bool := *;
      if incoming == [] || (fault && !reliable) {
        return [];
      }
      var k: nat :| 1 <= k <= n && k <= |incoming|;
      chunk := incoming[..k];
      incoming := incoming[k..];
    }

    method Send(bytes: seq<Byte>) returns (k: nat)
      requires bytes != []
      modifies this`outgoing
      ensures k <= |bytes| && outgoing == old(outgoing) + bytes[..k]
      ensures k == 0 ==> !reliable
    {
      var fault: bool := *;
      if fault && !reliable {
        return 0;
      }
      k :| 1 <= k <= |bytes|;
      outgoing := outgoing + bytes[..k];
    }
  }

  datatype WriteResult = Wrote(n: nat) | Again | Failed

  /** The writing end of a non-blocking socket pair.  Again answers come a finite number of times before
      a write moves something; once the other side is gone every write fails. */
  class Pipe {
    var bytes: seq<Byte>
    var refusals: nat
    var broken: bool

    constructor ()
      ensures bytes == [] && !broken
    {
      bytes, refusals, broken := [], *, false;
    }

    method Write(chunk: seq<Byte>) returns (r: WriteResult)
      requires chunk != []
      modifies this
      ensures r.Wrote? ==> 1 <= r.n <= |chunk| && bytes == old(bytes) + chunk[..r.n] && !broken
      ensures !r.Wrote? ==> bytes == old(bytes)
      ensures r.Again? ==> refusals < old(refusals) && !broken
      ensures r.Failed? ==> broken
      ensures old(broken) ==> r.Failed?
    {
      var fault: bool := *;
      broken := broken || fault;
      if broken {
        return Failed;
      }
      if refusals > 0 {
        refusals := refusals - 1;
        return Again;
      }
      var n: nat :| 1 <= n <= |chunk|;
      bytes := bytes + chunk[..n];
      refusals := *;
      r := Wrote(n);
    }
  }
}
