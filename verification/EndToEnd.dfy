/** What the client's methods and the server's methods come to together, over streams that do not break. */
module EndToEnd {
  import opened Bytes
  import opened Messages
  import opened Exchange
  import opened Framing
  import FileServer
  import FileClient

  lemma DownloadLeavesNothing(files: Files, name: Name, start: nat, reply: Bytes, stale: Bytes)
    requires AnswersDownload(files, name, start, reply) && RESPONSE_SIZE <= |stale|
    ensures FileClient.StreamAfter(reply, stale) == []
  {
    hide StatusOf, TotalOf, Hosted;
    ResponseRead(reply, reply[..RESPONSE_SIZE]);
  }

  /** In lock step each side consumes exactly what the other produced: after any exchange, refused downloads and
      empty ones included, both streams are empty again, and the session goes on unless the request ends it. */
  lemma LockStep(files: Files, r: Request, files': Files, stream': Bytes, out: Bytes, out': Bytes,
                 more: bool, undefined: bool, spinning: bool, stale: Bytes)
    requires WellFormed(r) && RESPONSE_SIZE <= |stale|
    requires FileServer.RequestHandled(files, files', Encode(r), stream', out, out', more, false, undefined, spinning)
    ensures !undefined && !spinning && out <= out'
    ensures stream' == []
    ensures var reply := out'[|out|..];
      match r
      case Echo(data) => |reply| == |data|
      case Time => |reply| == 8
      case Download(_, _) => FileClient.StreamAfter(reply, stale) == []
      case _ => reply == []
    ensures files' == FilesAfter(files, r) && more == Continues(files, r)
  {
    hide Encode, Parse, FilesAfter, Continues, FileClient.StreamAfter, AnswersDownload;
    ParseEncoded(r, []);
    assert Encode(r) + [] == Encode(r);
    if r.Download? {
      DownloadLeavesNothing(files, r.name, r.position, out'[|out|..], stale);
    }
  }

  /** What serving each request comes to, over a stream that goes on with `rest` and does not break. */
  lemma RequestServed(files: Files, r: Request, rest: Bytes, files': Files, stream': Bytes, out: Bytes, out': Bytes,
                      more: bool, undefined: bool, spinning: bool)
    requires WellFormed(r)
    requires FileServer.RequestHandled(files, files', Encode(r) + rest, stream', out, out', more, false, undefined,
                                       spinning)
    ensures !undefined && !spinning && stream' == rest
    ensures !r.Upload? ==> files' == files
    ensures match r
      case Echo(data) => more && out' == out + data
      case Time => more && out <= out' && |out'| == |out| + 8
      case Download(start, name) =>
        && more && out <= out'
        && var reply := out'[|out|..];
           && |reply| >= 16
           && var status := FromLittleEndian(reply[..4]);
              (match (if name == [] then Special else if name in files then files[name] else Absent)
               case Absent => status == 1 && |reply| == 16
               case Special => status == 2 && |reply| == 16
               case Regular(bytes, readable, _) =>
                 if !readable then status == 1 && |reply| == 16
                 else
                   && status == 0
                   && FromLittleEndian(reply[8..16]) == (if start < |bytes| then |bytes| - start else 0)
                   && reply[16..] == (if start < |bytes| then bytes[start..] else []))
      case Upload(name, content) =>
        && out' == out
        && (if content != [] && name != [] && name[0] != 46 && name[0] != 47 && name[0] != 126
               && (name in files ==> files[name] == Absent || (files[name].Regular? && files[name].writable))
            then
              more && files' == files[name := Regular(
                content, if name in files && files[name].Regular? then files[name].readable else true, true)]
            else !more && files' == files)
      case Close => !more && out' == out
  {
    hide Encode, Parse, FilesAfter, Continues, AnswersDownload, FromLittleEndian;
    ParseEncoded(r, rest);
    assert (Encode(r) + rest)[|Encode(r)|..] == rest;
    match r
    case Download(start, name) =>
      OtherEffects(files, r);
      ReplyStatus(files, name, start, out'[|out|..]);
    case Upload(name, content) =>
      UploadEffect(files, name, content);
      assert out' == out + out'[|out|..] == out;
    case _ =>
      OtherEffects(files, r);
      assert out' == out + out'[|out|..];
  }

  /** Any other packet ends the session: what opcode it has does not matter, nor what its body holds. */
  lemma OtherPacketEnds(files: Files, op: Byte, padding: Byte, body: Bytes, rest: Bytes, files': Files, stream': Bytes,
                        out: Bytes, out': Bytes, more: bool, undefined: bool, spinning: bool)
    requires (op == 0 || op >= 5) && |body| <= 8188
    requires FileServer.RequestHandled(files, files', [op, padding, |body| % 256, |body| / 256] + body + rest, stream',
                                       out, out', more, false, undefined, spinning)
    ensures !undefined && !spinning && !more && files' == files && out' == out && stream' == rest
  {
    var stream := [op, padding, |body| % 256, |body| / 256] + body + rest;
    TwoBytes(|body|);
    LoadU16(|body|);
    hide LittleEndian, FromLittleEndian;
    assert stream[2..4] == LittleEndian(|body|, 2);
    assert stream[HEADER_SIZE..] == body + rest;
    PacketThenRest(stream, body, rest);
    OpcodesMean(op, body, 0, [], []);
    assert Parse(stream) == Parsed(Request.Close, HEADER_SIZE + |body|);
    OtherEffects(files, Request.Close);
    assert out' == out + out'[|out|..];
  }

  /** The time a client reads is the time at the server, as far as 64 bits with a sign hold it. */
  lemma TimeArrives(now: int, rest: Bytes, stale: Bytes)
    requires -0x8000_0000_0000_0000 <= now < 0x8000_0000_0000_0000 && |stale| >= 8
    ensures var stream := LittleEndian(now % 0x1_0000_0000_0000_0000, 8) + rest;
      FileClient.Signed(FromLittleEndian(FileClient.Seen(stream, stale, 8))) == now
  {
    var code := LittleEndian(now % U64, 8);
    LoadU64(now % U64);
    assert FileClient.Seen(code + rest, stale, 8) == code;
    hide LittleEndian, FromLittleEndian;
  }

  /** A client is known by the identifier it sends, whatever it sends next. So it is offered the stamp made for that
      identifier, and another client's never: that one is dropped, and the client learns that there is nothing. */
  lemma IdentifierArrives(mac: Mac, rest: Bytes, stamps: map<Mac, Stamp>, padding: Byte)
    ensures FileServer.Identifier(mac + rest) == mac
    ensures mac !in stamps ==>
      && Greeting(stamps, FileServer.Identifier(mac + rest), padding) == [0, padding, 0, 0]
      && StampsAfterGreeting(stamps, FileServer.Identifier(mac + rest)) == map[]
    ensures mac in stamps ==>
      && Greeting(stamps, FileServer.Identifier(mac + rest), padding) != []
      && Greeting(stamps, FileServer.Identifier(mac + rest), padding)[0] == 6
      && StampsAfterGreeting(stamps, FileServer.Identifier(mac + rest)) == stamps - {mac}
  {
    hide StampBody, LittleEndian;
    assert forall i | 0 <= i < 6 :: (mac + rest)[i] == mac[i];
    hide FileServer.Identifier;
  }

  /** End-to-end upload: what `Client::Upload` sends for the file at `path`, handled by the server, stores the file
      byte for byte under what follows the last slash, and keeps the session, exactly if the file is not empty, the name
      is neither and does not begin with a dot or a tilde, and there is nothing of that name or a file that can be
      written; otherwise nothing changes and the session ends, although the client has reported Success. */
  lemma UploadStores(files: Files, dir: Bytes, base: Name, path: Name, content: Bytes, files': Files, stream': Bytes,
                     out: Bytes, out': Bytes, more: bool, undefined: bool, spinning: bool)
    requires 47 !in base && (path == base || path == dir + [47] + base)
    requires WellFormed(Request.Upload(base, content))
    requires FileServer.RequestHandled(files, files', Encode(Request.Upload(FileName(path), content)), stream',
                                       out, out', more, false, undefined, spinning)
    ensures more <==>
      && content != [] && base != [] && base[0] != 46 && base[0] != 126
      && (base in files ==> files[base] == Absent || (files[base].Regular? && files[base].writable))
    ensures if more
      then
        && base in files' && files'[base].Regular? && files'[base].bytes == content
        && files' - {base} == files - {base}
      else files' == files
    ensures stream' == [] && out' == out
  {
    hide Encode;
    BaseName(dir, base);
    var code := Encode(Request.Upload(base, content));
    assert code + [] == code;
    RequestServed(files, Request.Upload(base, content), [], files', stream', out, out', more, undefined, spinning);
  }

  /** A file uploaded by one client and downloaded by another is the same file. */
  lemma UploadThenDownload(files: Files, path: Name, content: Bytes, disk: map<Name, Bytes>, reply: Bytes, stale: Bytes)
    requires content != [] && Accepted(files, FileName(path)) && RESPONSE_SIZE <= |stale|
    requires var name := FileName(path);
      && (Find(files, name).Regular? ==> Find(files, name).readable)
      && AnswersDownload(FilesAfter(files, Request.Upload(name, content)), name, 0, reply)
    ensures FileClient.DiskAfter(disk, FileName(path), 0, reply, stale) == disk[FileName(path) := content]
  {
    hide StatusOf, TotalOf, FileClient.DiskAfter, FileClient.StreamAfter, FileClient.Verdict;
    var name := FileName(path);
    var files' := FilesAfter(files, Request.Upload(name, content));
    assert name != [] by { assert Writable(files, name); }
    assert reply + [] == reply;
    FileClient.DownloadCompletes(files', disk, name, 0, reply, [], stale);
    assert [] + Tail(content, 0) == content;
  }

  /** A file uploaded anew between an interrupted download and its resumption: the copy is what there was of the old
      file and the new file from that position on, which is the new file if and only if what there was is a first part
      of it; `Client::Download` returns Success in any case. */
  lemma ResumeAfterUpload(files: Files, name: Name, content: Bytes, disk: map<Name, Bytes>, reply: Bytes, stale: Bytes)
    requires content != [] && Accepted(files, name) && name in disk && RESPONSE_SIZE <= |stale|
    requires var start := |disk[name]|;
      && (Find(files, name).Regular? ==> Find(files, name).readable)
      && AnswersDownload(FilesAfter(files, Request.Upload(name, content)), name, start, reply)
    ensures var start := |disk[name]|;
      var disk' := FileClient.DiskAfter(disk, name, start, reply, stale);
      && FileClient.Verdict(reply, FileClient.Seen(reply, stale, RESPONSE_SIZE)).Success?
      && disk' == disk[name := disk[name] + Tail(content, start)]
      && (disk'[name] == content <==> disk[name] <= content)
  {
    hide StatusOf, TotalOf, FileClient.DiskAfter, FileClient.StreamAfter, FileClient.Verdict, FileClient.Seen;
    var files' := FilesAfter(files, Request.Upload(name, content));
    assert name != [] by { assert Writable(files, name); }
    assert reply + [] == reply;
    FileClient.DownloadCompletes(files', disk, name, |disk[name]|, reply, [], stale);
  }

  /** So a copy can come to mix both: one byte of [1, 1] is there when [2, 2] is uploaded in its place. */
  lemma MixedCopy(name: Name, padding: Bytes, stale: Bytes)
    requires name != [] && !Refused(name) && |padding| == 4 && RESPONSE_SIZE <= |stale|
    ensures var files: Files := map[name := Regular([1, 1], true, true)];
      var files' := FilesAfter(files, Request.Upload(name, [2, 2]));
      var reply := Response(Ready, padding, 1) + [2];
      && Hosted(files', name) == [2, 2] && AnswersDownload(files', name, 1, reply)
      && FileClient.Verdict(reply, FileClient.Seen(reply, stale, RESPONSE_SIZE)).Success?
      && FileClient.DiskAfter(map[name := [1]], name, 1, reply, stale) == map[name := [1, 2]]
  {
    hide StatusOf, TotalOf, Response, FileClient.DiskAfter, FileClient.StreamAfter, FileClient.Verdict, FileClient.Seen;
    var files: Files := map[name := Regular([1, 1], true, true)];
    var files' := FilesAfter(files, Request.Upload(name, [2, 2]));
    var reply := Response(Ready, padding, 1) + [2];
    assert Tail([2, 2], 1) == [2];
    ReplyAnswers(files', name, 1, padding, 1);
    ResumeAfterUpload(files, name, [2, 2], map[name := [1]], reply, stale);
    var first: Bytes, second: Bytes := [1], [2];
    assert first + second == [1, 2];
  }
}
