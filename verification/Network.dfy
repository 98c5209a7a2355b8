/** A connection: a byte stream the peer has written, delivered in arbitrary pieces. */
module Network {
  import opened RingBytes

  /** What a Read delivered; a Read that fails may deliver bytes too. */
  datatype ReadResult = ReadResult(bytes: seq<byte>, failed: bool)

  function Min(a: nat, b: nat): nat { if a <= b then a else b }

  class Conn {
    var pending: seq<byte>   // written by the peer, not yet read here
    var chunks: seq<nat>     // how much each coming Read may deliver; the connection fails when none is left
    var parting: nat         // how much a failing Read may still deliver
    var sent: seq<byte>      // written here, for the peer

    constructor (pending: seq<byte>, chunks: seq<nat>, parting: nat)
      ensures this.pending == pending && this.chunks == chunks && this.parting == parting && sent == []
    {
      this.pending, this.chunks, this.parting, sent := pending, chunks, parting, [];
    }

    /** How much the next Read may deliver. */
    function Offer(): nat reads this {
      if chunks == [] then parting else chunks[0]
    }

    /** Delivers what is offered, as far as there is room for it and it has been written. */
    method Read(room: nat) returns (r: ReadResult)
      modifies this`pending, this`chunks
      ensures |r.bytes| == Min(Min(old(Offer()), room), |old(pending)|) && r.bytes + pending == old(pending)
      ensures r.failed <==> old(chunks) == []
      ensures chunks == if old(chunks) == [] then [] else old(chunks)[1..]
    {
      var n := Min(Min(Offer(), room), |pending|);
      r := ReadResult(pending[..n], chunks == []);
      pending := pending[n..];
      if chunks != [] { chunks := chunks[1..]; }
    }

    method Write(bytes: seq<byte>)
      modifies this`sent
      ensures sent == old(sent) + bytes
    {
      sent := sent + bytes;
    }
  }

  /** The writing end of a connection that breaks once the peer has taken its quota. */
  class Sink {
    var sent: seq<byte>
    var quota: nat

    constructor (quota: nat)
      ensures sent == [] && this.quota == quota
    {
      sent, this.quota := [], quota;
    }

    /** Writes all of the bytes, or as many as the peer still takes and fails. */
    method Write(bytes: seq<byte>) returns (n: nat, ok: bool)
      modifies this
      ensures n == Min(|bytes|, old(quota)) && ok == (|bytes| <= old(quota))
      ensures sent == old(sent) + bytes[..n] && quota == old(quota) - n
    {
      n := Min(|bytes|, quota);
      ok := n == |bytes|;
      sent, quota := sent + bytes[..n], quota - n;
    }
  }
}
