/** How a byte stream falls apart into requests, and what serving them one after another comes to. */
module Framing {
  import opened Bytes
  import opened Messages
  import opened Exchange

  datatype Parsed =
    | Incomplete                            // the stream ends before the request does
    | Unusable                              // it would overrun the buffer, or misses its number or name
    | Parsed(request: Request, size: nat)   // the request and the bytes it takes, content included

  /** The request an order asks for, given the stream behind the `end` bytes of its packet. */
  function WithContent(order: Order, rest: Bytes, end: nat): (p: Parsed)
    ensures p.Parsed? ==> end <= p.size <= end + |rest|
  {
    match order
    case EchoOrder(data) => Parsed(Request.Echo(data), end)
    case TimeOrder => Parsed(Request.Time, end)
    case DownloadOrder(position, name) => Parsed(Request.Download(position, name), end)
    case UploadOrder(size, name) =>
      if |rest| < size then Incomplete else Parsed(Request.Upload(name, rest[..size]), end + size)
    case Unknown => Parsed(Request.Close, end)
    case Malformed => Unusable
  }

  /** The request at the front of a stream. */
  function Parse(s: Bytes): (p: Parsed)
    ensures p.Parsed? ==> HEADER_SIZE <= p.size <= |s|
  {
    if |s| < HEADER_SIZE then Incomplete
    else
      var end := HEADER_SIZE + SizeOf(s);
      if SizeOf(s) > MAX_BODY then Unusable
      else if |s| < end then Incomplete
      else WithContent(Decode(OpOf(s), s[HEADER_SIZE..end]), s[end..], end)
  }

  /** The packet at the front of a stream says what request it is. */
  lemma ParseAtContent(stream: Bytes, end: nat)
    requires HEADER_SIZE <= end <= |stream| && SizeOf(stream) == end - HEADER_SIZE <= MAX_BODY
    ensures Parse(stream) == WithContent(Decode(OpOf(stream), stream[HEADER_SIZE..end]), stream[end..], end)
  {
    hide Decode, WithContent, SizeOf;
  }

  lemma PacketThenRest(s: Bytes, body: Bytes, rest: Bytes)
    requires |s| >= HEADER_SIZE && s[HEADER_SIZE..] == body + rest
    ensures s[HEADER_SIZE..HEADER_SIZE + |body|] == body && s[HEADER_SIZE + |body|..] == rest
  {
    assert s[HEADER_SIZE..][..|body|] == body && s[HEADER_SIZE..][|body|..] == rest;
  }

  /** Framing undoes encoding, whatever follows. */
  lemma ParseEncoded(r: Request, tail: Bytes)
    requires WellFormed(r)
    ensures Parse(Encode(r) + tail) == Parsed(r, |Encode(r)|)
  {
    hide Encode, Header, Decode, Body;
    var s := Encode(r) + tail;
    RequestRoundTrip(r, tail);
    var end := HEADER_SIZE + |Body(r)|;
    PacketThenRest(s, Body(r), Content(r) + tail);
    assert Body(r) + Content(r) + tail == Body(r) + (Content(r) + tail);
    assert (Content(r) + tail)[..|Content(r)|] == Content(r);
  }

  /** The requests one session serves: up to the first that ends it, or as far as the stream goes. */
  function Script(files: Files, s: Bytes): seq<Request>
    decreases |s|
  {
    match Parse(s)
    case Parsed(r, n) => [r] + (if Continues(files, r) then Script(FilesAfter(files, r), s[n..]) else [])
    case _ => []
  }

  /** The stream ends where the session asks for the next request: before its header is complete, or right behind it. */
  predicate OutOfRequests(s: Bytes) {
    |s| < HEADER_SIZE || (|s| == HEADER_SIZE && 0 < SizeOf(s) <= MAX_BODY)
  }

  /** What the session leaves unread. */
  function Unserved(files: Files, s: Bytes): Bytes
    decreases |s|
  {
    match Parse(s)
    case Parsed(r, n) => if Continues(files, r) then Unserved(FilesAfter(files, r), s[n..]) else s[n..]
    case _ => if OutOfRequests(s) then [] else s
  }

  /** Whether whole requests are all there is: up to one that ends the session, or up to the end of the stream. */
  predicate EndsCleanly(files: Files, s: Bytes)
    decreases |s|
  {
    match Parse(s)
    case Parsed(r, n) => Continues(files, r) ==> EndsCleanly(FilesAfter(files, r), s[n..])
    case _ => OutOfRequests(s)
  }

  /** Serving the request at the front of a stream, if there is one. */
  lemma FirstOfScript(files: Files, s: Bytes)
    ensures Parse(s).Parsed? ==>
      var Parsed(r, n) := Parse(s);
      var files' := FilesAfter(files, r);
      if Continues(files, r)
      then
        && Script(files, s) == [r] + Script(files', s[n..]) && Unserved(files, s) == Unserved(files', s[n..])
        && EndsCleanly(files, s) == EndsCleanly(files', s[n..])
      else Script(files, s) == [r] && Unserved(files, s) == s[n..] && EndsCleanly(files, s)
    ensures !Parse(s).Parsed? ==>
      && Script(files, s) == [] && EndsCleanly(files, s) == OutOfRequests(s)
      && (OutOfRequests(s) ==> Unserved(files, s) == [])
  {
    hide Parse, Continues, FilesAfter, OutOfRequests;
  }

  function FilesAfterAll(files: Files, rs: seq<Request>): Files
    decreases |rs|
  {
    if rs == [] then files else FilesAfterAll(FilesAfter(files, rs[0]), rs[1..])
  }

  /** `replies` answers the requests one by one, each against the files as its predecessors left them. */
  predicate AnswersAll(files: Files, rs: seq<Request>, replies: seq<Bytes>)
    decreases |rs|
  {
    && |replies| == |rs|
    && (rs != [] ==> Answers(files, rs[0], replies[0]) && AnswersAll(FilesAfter(files, rs[0]), rs[1..], replies[1..]))
  }

  /** The requests of a list up to and including the first that ends a session. */
  function UpToEnding(files: Files, rs: seq<Request>): seq<Request>
    decreases |rs|
  {
    if rs == [] then []
    else if Continues(files, rs[0]) then [rs[0]] + UpToEnding(FilesAfter(files, rs[0]), rs[1..])
    else [rs[0]]
  }

  predicate AllContinue(files: Files, rs: seq<Request>)
    decreases |rs|
  {
    rs != [] ==> Continues(files, rs[0]) && AllContinue(FilesAfter(files, rs[0]), rs[1..])
  }

  /** Serving the request at the front of a stream of requests. */
  lemma FirstOfRequests(files: Files, rs: seq<Request>, tail: Bytes)
    requires AllWellFormed(rs) && rs != []
    ensures var s := EncodeAll(rs) + tail;
      var rest := EncodeAll(rs[1..]) + tail;
      var files' := FilesAfter(files, rs[0]);
      if Continues(files, rs[0])
      then
        && Script(files, s) == [rs[0]] + Script(files', rest)
        && Unserved(files, s) == Unserved(files', rest)
        && EndsCleanly(files, s) == EndsCleanly(files', rest)
      else Script(files, s) == [rs[0]] && Unserved(files, s) == rest && EndsCleanly(files, s)
  {
    hide Encode, Parse, Continues, FilesAfter;
    var rest := EncodeAll(rs[1..]) + tail;
    assert rs[0] in rs;
    assert EncodeAll(rs) + tail == Encode(rs[0]) + rest;
    ParseEncoded(rs[0], rest);
    assert (Encode(rs[0]) + rest)[|Encode(rs[0])|..] == rest;
  }

  /** Pipelined framing: from a stream of well-formed requests sent back to back, a session serves exactly that
      list in order and goes on with what follows, as long as none of them ends it... */
  lemma {:induction false} ScriptOfRequests(files: Files, rs: seq<Request>, tail: Bytes)
    requires AllWellFormed(rs) && AllContinue(files, rs)
    ensures Script(files, EncodeAll(rs) + tail) == rs + Script(FilesAfterAll(files, rs), tail)
    ensures Unserved(files, EncodeAll(rs) + tail) == Unserved(FilesAfterAll(files, rs), tail)
    ensures EndsCleanly(files, EncodeAll(rs) + tail) == EndsCleanly(FilesAfterAll(files, rs), tail)
    decreases |rs|
  {
    hide Encode, Parse, Continues, FilesAfter, Script, Unserved, EndsCleanly;
    if rs == [] {
      assert EncodeAll(rs) + tail == tail;
    } else {
      FirstOfRequests(files, rs, tail);
      ScriptOfRequests(FilesAfter(files, rs[0]), rs[1..], tail);
      var rest := Script(FilesAfterAll(files, rs), tail);
      assert [rs[0]] + (rs[1..] + rest) == rs + rest;
    }
  }

  /** ... and otherwise exactly the requests up to the first that ends it, leaving the rest unread. */
  lemma {:induction false} ScriptUpToEnding(files: Files, rs: seq<Request>, tail: Bytes)
    requires AllWellFormed(rs) && !AllContinue(files, rs)
    ensures var served := UpToEnding(files, rs);
      && served <= rs && Script(files, EncodeAll(rs) + tail) == served
      && Unserved(files, EncodeAll(rs) + tail) == EncodeAll(rs[|served|..]) + tail
      && EndsCleanly(files, EncodeAll(rs) + tail)
    decreases |rs|
  {
    hide Encode, Parse, Continues, FilesAfter, Script, Unserved, EndsCleanly;
    FirstOfRequests(files, rs, tail);
    if Continues(files, rs[0]) {
      ScriptUpToEnding(FilesAfter(files, rs[0]), rs[1..], tail);
      var n := |UpToEnding(FilesAfter(files, rs[0]), rs[1..])|;
      assert rs[1..][n..] == rs[n + 1..];
    }
  }

  lemma {:induction false} NothingEnds(files: Files, rs: seq<Request>)
    requires AllContinue(files, rs)
    ensures UpToEnding(files, rs) == rs
    decreases |rs|
  {
    if rs != [] {
      NothingEnds(FilesAfter(files, rs[0]), rs[1..]);
    }
  }

  /** Any list of whole requests is a clean stream, and a session serves all of it up to the first that ends it. */
  lemma WholeRequests(files: Files, rs: seq<Request>)
    requires AllWellFormed(rs)
    ensures EndsCleanly(files, EncodeAll(rs)) && Script(files, EncodeAll(rs)) == UpToEnding(files, rs)
    ensures AllContinue(files, rs) ==> UpToEnding(files, rs) == rs && Unserved(files, EncodeAll(rs)) == []
  {
    assert EncodeAll(rs) + [] == EncodeAll(rs);
    if AllContinue(files, rs) {
      ScriptOfRequests(files, rs, []);
      NothingEnds(files, rs);
      FirstOfScript(FilesAfterAll(files, rs), []);
    } else {
      ScriptUpToEnding(files, rs, []);
    }
  }

  function Joined(pieces: seq<Bytes>): Bytes {
    if pieces == [] then [] else pieces[0] + Joined(pieces[1..])
  }

  /** Where a session stands: what is served so far, and that serving the rest completes the script. */
  predicate Reached(files: Files, stream: Bytes, out: Bytes, files': Files, stream': Bytes, out': Bytes,
                    served: seq<Request>, replies: seq<Bytes>, more: bool)
  {
    && files' == FilesAfterAll(files, served)
    && AnswersAll(files, served, replies)
    && out' == out + Joined(replies)
    && Script(files, stream) == served + (if more then Script(files', stream') else [])
    && Unserved(files, stream) == (if more then Unserved(files', stream') else stream')
  }

  /** The same on a stream that can be served to its end. */
  predicate SoFar(files: Files, stream: Bytes, out: Bytes, files': Files, stream': Bytes, out': Bytes,
                  served: seq<Request>, replies: seq<Bytes>, more: bool)
  {
    && Reached(files, stream, out, files', stream', out', served, replies, more)
    && (more ==> EndsCleanly(files', stream'))
  }

  lemma SessionStarts(files: Files, stream: Bytes, out: Bytes)
    ensures Reached(files, stream, out, files, stream, out, [], [], true)
    ensures EndsCleanly(files, stream) ==> SoFar(files, stream, out, files, stream, out, [], [], true)
  {
    assert out + Joined([]) == out;
  }

  lemma {:induction false} FilesAfterAllAppend(files: Files, rs: seq<Request>, r: Request)
    ensures FilesAfterAll(files, rs + [r]) == FilesAfter(FilesAfterAll(files, rs), r)
    decreases |rs|
  {
    hide FilesAfter;
    if rs == [] {
      assert ([] + [r])[1..] == [];
    } else {
      assert (rs + [r])[1..] == rs[1..] + [r];
      FilesAfterAllAppend(FilesAfter(files, rs[0]), rs[1..], r);
    }
  }

  lemma {:induction false} AnswersAllAppend(files: Files, rs: seq<Request>, replies: seq<Bytes>,
                                            r: Request, reply: Bytes)
    requires AnswersAll(files, rs, replies) && Answers(FilesAfterAll(files, rs), r, reply)
    ensures AnswersAll(files, rs + [r], replies + [reply]) && Joined(replies + [reply]) == Joined(replies) + reply
    decreases |rs|
  {
    hide FilesAfter, Answers;
    if rs == [] {
      assert ([] + [r])[1..] == [] && ([] + [reply])[1..] == [];
      assert replies == [] && reply + [] == reply && [] + reply == reply;
    } else {
      assert (rs + [r])[1..] == rs[1..] + [r] && (replies + [reply])[1..] == replies[1..] + [reply];
      AnswersAllAppend(FilesAfter(files, rs[0]), rs[1..], replies[1..], r, reply);
      assert replies[0] + (Joined(replies[1..]) + reply) == replies[0] + Joined(replies[1..]) + reply;
    }
  }

  lemma CleanSoFar(files: Files, stream: Bytes, out: Bytes, files0: Files, stream0: Bytes, out0: Bytes,
                   served: seq<Request>, replies: seq<Bytes>)
    requires SoFar(files, stream, out, files0, stream0, out0, served, replies, true)
    ensures EndsCleanly(files0, stream0) && (Parse(stream0).Parsed? || OutOfRequests(stream0))
  {
    hide Parse, OutOfRequests;
    FirstOfScript(files0, stream0);
  }

  /** One more request served is one more request of the script. */
  lemma ReachedOneMore(files: Files, stream: Bytes, out: Bytes, files0: Files, stream0: Bytes, out0: Bytes,
                       served: seq<Request>, replies: seq<Bytes>, reply: Bytes)
    requires Reached(files, stream, out, files0, stream0, out0, served, replies, true)
    requires Parse(stream0).Parsed? && Answers(files0, Parse(stream0).request, reply)
    ensures var Parsed(r, n) := Parse(stream0);
      && Reached(files, stream, out, FilesAfter(files0, r), stream0[n..], out0 + reply, served + [r], replies + [reply],
                 Continues(files0, r))
      && (EndsCleanly(files0, stream0) && Continues(files0, r) ==> EndsCleanly(FilesAfter(files0, r), stream0[n..]))
  {
    hide Parse, FilesAfter, Continues, Answers, FilesAfterAll, AnswersAll, Joined, Script, Unserved, EndsCleanly;
    FirstOfScript(files0, stream0);
    var Parsed(r, n) := Parse(stream0);
    FilesAfterAllAppend(files, served, r);
    AnswersAllAppend(files, served, replies, r, reply);
    assert out + (Joined(replies) + reply) == out + Joined(replies) + reply;
    var later := if Continues(files0, r) then Script(FilesAfter(files0, r), stream0[n..]) else [];
    assert served + ([r] + later) == served + [r] + later;
  }

  lemma ServedOneMore(files: Files, stream: Bytes, out: Bytes, files0: Files, stream0: Bytes, out0: Bytes,
                      served: seq<Request>, replies: seq<Bytes>, reply: Bytes)
    requires SoFar(files, stream, out, files0, stream0, out0, served, replies, true)
    requires Parse(stream0).Parsed? && Answers(files0, Parse(stream0).request, reply)
    ensures var Parsed(r, n) := Parse(stream0);
      SoFar(files, stream, out, FilesAfter(files0, r), stream0[n..], out0 + reply, served + [r], replies + [reply],
            Continues(files0, r))
  {
    hide Parse, FilesAfter, Continues, Answers, Reached, EndsCleanly;
    ReachedOneMore(files, stream, out, files0, stream0, out0, served, replies, reply);
  }

  /** A session that finds no further request is over. */
  lemma OutOfStream(files: Files, stream: Bytes, out: Bytes, files0: Files, stream0: Bytes, out0: Bytes,
                    served: seq<Request>, replies: seq<Bytes>)
    requires SoFar(files, stream, out, files0, stream0, out0, served, replies, true) && !Parse(stream0).Parsed?
    ensures SoFar(files, stream, out, files0, [], out0, served, replies, false)
  {
    hide Parse, OutOfRequests, AnswersAll, FilesAfterAll, Joined;
    FirstOfScript(files0, stream0);
  }

  /** The request in front of a session is the next one of its script. */
  lemma NextOfScript(files: Files, stream: Bytes, out: Bytes, files0: Files, stream0: Bytes, out0: Bytes,
                     served: seq<Request>, replies: seq<Bytes>)
    requires Reached(files, stream, out, files0, stream0, out0, served, replies, true)
    ensures Parse(stream0).Parsed? ==>
      && |served| < |Script(files, stream)| && Script(files, stream)[..|served|] == served
      && Script(files, stream)[|served|] == Parse(stream0).request
    ensures !Parse(stream0).Parsed? ==> served == Script(files, stream)
  {
    hide Parse, OutOfRequests, AnswersAll, FilesAfterAll, Joined, Unserved, EndsCleanly, FilesAfter, Continues;
    FirstOfScript(files0, stream0);
    assert served + [] == served;
  }

  /** The pieces a send loop cuts a file into. */
  function Chunks(bytes: Bytes): seq<Bytes> {
    if bytes == [] then []
    else
      var n := Min(BUFFER_SIZE, |bytes|);
      [bytes[..n]] + Chunks(bytes[n..])
  }

  /** The send loop makes as few sends as a buffer allows, none empty, and they add up to the file. */
  lemma {:induction false} ChunksJoin(bytes: Bytes)
    ensures Joined(Chunks(bytes)) == bytes
    ensures |Chunks(bytes)| == (|bytes| + 8191) / 8192
    ensures forall c | c in Chunks(bytes) :: 1 <= |c| <= 8192
    decreases |bytes|
  {
    if bytes != [] {
      var n := Min(BUFFER_SIZE, |bytes|);
      var rest := Chunks(bytes[n..]);
      ChunksJoin(bytes[n..]);
      assert Chunks(bytes) == [bytes[..n]] + rest;
      assert bytes[..n] + bytes[n..] == bytes;
      hide Chunks, Joined;
      assert ([bytes[..n]] + rest)[1..] == rest;
    }
  }

  lemma NoChunks()
    ensures Chunks([]) == []
  {
  }

  /** A send loop has sent the first `n` bytes, in the first of the pieces. */
  predicate SentSoFar(bytes: Bytes, n: nat, out: Bytes, out': Bytes, pieces: seq<Bytes>, pieces': seq<Bytes>) {
    n <= |bytes| && out' == out + bytes[..n] && pieces' + Chunks(bytes[n..]) == pieces + Chunks(bytes)
  }

  lemma SendStarts(bytes: Bytes, out: Bytes, pieces: seq<Bytes>)
    ensures SentSoFar(bytes, 0, out, out, pieces, pieces)
  {
    hide Chunks;
    assert out + bytes[..0] == out && bytes[0..] == bytes;
  }

  lemma SendGoesOn(bytes: Bytes, n: nat, out: Bytes, out': Bytes, pieces: seq<Bytes>, pieces': seq<Bytes>)
    requires n < |bytes| && SentSoFar(bytes, n, out, out', pieces, pieces')
    ensures var n' := n + Min(BUFFER_SIZE, |bytes| - n);
      SentSoFar(bytes, n', out, out' + bytes[n..n'], pieces, pieces' + [bytes[n..n']])
  {
    var n' := n + Min(BUFFER_SIZE, |bytes| - n);
    var chunk := bytes[n..n'];
    assert Chunks(bytes[n..]) == [chunk] + Chunks(bytes[n'..]) by {
      assert bytes[n..][..n' - n] == chunk && bytes[n..][n' - n..] == bytes[n'..];
    }
    hide Chunks;
    assert bytes[..n] + chunk == bytes[..n'];
    AddedInTwo(out, bytes[..n], chunk);
    assert pieces' + [chunk] + Chunks(bytes[n'..]) == pieces' + ([chunk] + Chunks(bytes[n'..]));
  }

  lemma SentIs(bytes: Bytes, n: nat, out: Bytes, out': Bytes, pieces: seq<Bytes>, pieces': seq<Bytes>)
    requires SentSoFar(bytes, n, out, out', pieces, pieces')
    ensures n <= |bytes| && out' == out + bytes[..n]
  {
  }

  lemma SendEnds(bytes: Bytes, out: Bytes, out': Bytes, pieces: seq<Bytes>, pieces': seq<Bytes>)
    requires SentSoFar(bytes, |bytes|, out, out', pieces, pieces')
    ensures out' == out + bytes && pieces' == pieces + Chunks(bytes)
  {
    assert bytes[..|bytes|] == bytes && bytes[|bytes|..] == [];
    assert pieces' + [] == pieces';
  }

  /** Each reply of a session answers the request it stands beside, by the files as the requests before it left them. */
  lemma {:induction false} AnswersEach(files: Files, rs: seq<Request>, replies: seq<Bytes>, i: nat)
    requires AnswersAll(files, rs, replies) && i < |rs|
    ensures |replies| == |rs| && Answers(FilesAfterAll(files, rs[..i]), rs[i], replies[i])
    decreases |rs|
  {
    hide Answers, FilesAfter;
    if i > 0 {
      AnswersEach(FilesAfter(files, rs[0]), rs[1..], replies[1..], i - 1);
      assert rs[..i][1..] == rs[1..][..i - 1] && rs[..i][0] == rs[0];
    }
  }

  /** What a session serves of a list: all of it, or up to the one request in it that ends the session. */
  lemma {:induction false} ServedOfList(files: Files, rs: seq<Request>)
    ensures var served := UpToEnding(files, rs);
      && served <= rs
      && (forall i | 0 <= i < |served| - 1 :: Continues(FilesAfterAll(files, rs[..i]), rs[i]))
      && (served != [] ==>
            var last := |served| - 1;
            served == rs || !Continues(FilesAfterAll(files, rs[..last]), rs[last]))
      && (rs != [] ==> served != [])
    decreases |rs|
  {
    hide Continues, FilesAfter;
    if rs != [] && Continues(files, rs[0]) {
      var files' := FilesAfter(files, rs[0]);
      ServedOfList(files', rs[1..]);
      forall i | 0 < i <= |rs| ensures FilesAfterAll(files, rs[..i]) == FilesAfterAll(files', rs[1..][..i - 1]) {
        assert rs[..i][1..] == rs[1..][..i - 1] && rs[..i][0] == rs[0];
      }
      var served, rest := UpToEnding(files, rs), UpToEnding(files', rs[1..]);
      assert served == [rs[0]] + rest;
      assert forall i | 0 < i < |rs| :: rs[1..][i - 1] == rs[i];
    }
  }
}
