/** One end of a TCP connection, as src/core/connection.h and src/core/socket.cpp:363-385 present it:
    a reliable ordered byte stream each way (section 2.2 of RFC 9293) whose pieces and failures the
    operating system chooses. */
module Connections {
  import opened Bytes
  import opened Messages

  /** `Net::Status`, as far as the callers tell its values apart. */
  datatype NetStatus =
    | Success
    | Timeout
    | TryAgain
    | Unreachable
    | ConnectionRefused
    | ConnectionReset
    | Failed   // every other code

  class Connection {
    /** Everything that will still arrive before the stream ends. */
    var incoming: Bytes
    /** Everything accepted for sending so far. */
    var outgoing: Bytes
    var status: NetStatus
    /** A send has failed: this end will deliver nothing more. */
    var down: bool
    /** What each accepted send sent. */
    ghost var pieces: seq<Bytes>

    constructor (incoming: Bytes)
      ensures this.incoming == incoming && outgoing == [] && status.Success? && !down && pieces == []
    {
      this.incoming := incoming;
      outgoing := [];
      status := Success;
      down := false;
      pieces := [];
    }

    /** Sends all or nothing; a failure is final. Returns the number of bytes sent. */
    method Send(bytes: Bytes) returns (n: nat)
      modifies this
      ensures incoming == old(incoming)
      ensures !down ==> n == |bytes| && outgoing == old(outgoing) + bytes && status == old(status) && !old(down)
      ensures down ==> n == 0 && outgoing == old(outgoing) && !status.Success?
      ensures pieces == if down then old(pieces) else old(pieces) + [bytes]
    {
      if * {
        down := true;
      }
      if down {
        var failure: NetStatus :| !failure.Success?;
        status := failure;
        n := 0;
      } else {
        outgoing := outgoing + bytes;
        pieces := pieces + [bytes];
        n := |bytes|;
      }
    }

    /** Receives some of what is there, at least one byte; 0 only at the end, with or without an error. */
    method Receive(buffer: array<Byte>, offset: nat, size: nat) returns (n: nat)
      requires offset + size <= buffer.Length
      modifies this, buffer
      ensures n <= size && n <= |old(incoming)| && (n == 0 ==> size == 0 || old(incoming) == [])
      ensures incoming == old(incoming)[n..] && outgoing == old(outgoing) && down == old(down) && pieces == old(pieces)
      ensures buffer[..] == old(buffer[..offset]) + old(incoming)[..n] + old(buffer[offset + n..])
      ensures offset == 0 ==> buffer[..n] == old(incoming)[..n]
      ensures n > 0 || size == 0 ==> status == old(status)
    {
      if size == 0 || incoming == [] {
        n := 0;
        if size > 0 {
          status := *;
        }
      } else {
        n :| 1 <= n <= size && n <= |incoming|;
        Fill(buffer, offset, n);
      }
      assert buffer[..] == buffer[..offset] + buffer[offset..offset + n] + buffer[offset + n..];
    }

    /** Receives all that was asked for, or all there is when the stream ends first. */
    method ReceiveAll(buffer: array<Byte>, offset: nat, size: nat) returns (n: nat)
      requires offset + size <= buffer.Length
      modifies this, buffer
      ensures n == Min(size, |old(incoming)|)
      ensures incoming == old(incoming)[n..] && outgoing == old(outgoing) && down == old(down) && pieces == old(pieces)
      ensures buffer[..] == old(buffer[..offset]) + old(incoming)[..n] + old(buffer[offset + n..])
      ensures offset == 0 ==> buffer[..n] == old(incoming)[..n]
      ensures n == size ==> status == old(status)
    {
      n := Min(size, |incoming|);
      if n < size {
        status := *;
      }
      Fill(buffer, offset, n);
      assert buffer[..] == buffer[..offset] + buffer[offset..offset + n] + buffer[offset + n..];
    }

    method Fill(buffer: array<Byte>, offset: nat, n: nat)
      requires n <= |incoming| && offset + n <= buffer.Length
      modifies this`incoming, buffer
      ensures incoming == old(incoming)[n..]
      ensures buffer[..offset] == old(buffer[..offset])
      ensures buffer[offset..offset + n] == old(incoming)[..n]
      ensures buffer[offset + n..] == old(buffer[offset + n..])
    {
      for i := 0 to n
        invariant incoming == old(incoming)
        invariant buffer[..offset] == old(buffer[..offset])
        invariant buffer[offset..offset + i] == incoming[..i]
        invariant buffer[offset + i..] == old(buffer[offset + i..])
      {
        buffer[offset + i] := incoming[i];
      }
      incoming := incoming[n..];
    }

    /** Returns the last failure and clears it. */
    method Fail() returns (failure: NetStatus)
      modifies this`status
      ensures failure == old(status) && status.Success?
    {
      failure := status;
      status := Success;
    }
  }
}
