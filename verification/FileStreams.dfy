/** The two calls both send loops repeat: read the next bytes of a file into the buffer, send the buffer. */
module FileStreams {
  import opened Bytes
  import opened Connections

  /** The `read` of `std::ifstream`: the next `n` bytes of the file land at the front of the buffer. */
  method Read(buffer: array<Byte>, content: Bytes, at: nat, n: nat)
    requires n <= buffer.Length && at + n <= |content|
    modifies buffer
    ensures buffer[..n] == content[at..at + n]
  {
    for i := 0 to n
      invariant buffer[..i] == content[at..at + i]
    {
      buffer[i] := content[at + i];
    }
  }

  method SendNext(connection: Connection, buffer: array<Byte>, content: Bytes, at: nat, n: nat) returns (sent: bool)
    requires 0 < n <= buffer.Length && at + n <= |content|
    modifies connection, buffer
    ensures connection.incoming == old(connection.incoming) && sent == !connection.down
    ensures sent ==>
      && connection.outgoing == old(connection.outgoing) + content[at..at + n]
      && connection.pieces == old(connection.pieces) + [content[at..at + n]]
      && connection.status == old(connection.status)
    ensures !sent ==> connection.outgoing == old(connection.outgoing)
  {
    Read(buffer, content, at, n);
    var count := connection.Send(buffer[..n]);
    sent := count != 0;
  }
}
