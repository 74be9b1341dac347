/** What one exchange means, whoever carries it out: the hosted files, the answer to each request,
    the files afterwards, and whether the session goes on. */
module Exchange {
  import opened Bytes
  import opened Messages

  type Mac = m: Bytes | |m| == MAC_SIZE witness [0, 0, 0, 0, 0, 0]

  /** `DownloadStamp`: the path below the host directory and the offset an interrupted download had reached. */
  datatype Stamp = Stamp(path: Name, position: nat)

  /** A directory entry; `Special` is anything that is not a regular file. */
  datatype Entry =
    | Absent
    | Special
    | Regular(bytes: Bytes, readable: bool, writable: bool)

  type Files = map<Name, Entry>

  /** The entry a path below the host directory names; the empty path is the directory itself. */
  function Find(files: Files, name: Name): Entry {
    if name == [] then Special else if name in files then files[name] else Absent
  }

  /** The content the server holds under a name. */
  function Hosted(files: Files, name: Name): Bytes {
    if Find(files, name).Regular? then Find(files, name).bytes else []
  }

  predicate Sizable(files: Files) {
    forall n | n in files :: |Hosted(files, n)| < U64
  }

  /** The status of a download response (src/server/server.cpp:148-170). */
  function DownloadStatus(files: Files, name: Name): Status {
    match Find(files, name)
    case Absent => NoSuchFile
    case Special => IsNotFile
    case Regular(_, readable, _) => if readable then Ready else NoSuchFile
  }

  /** The part of a file a download from `start` has to deliver. */
  function Tail(bytes: Bytes, start: nat): (t: Bytes)
    ensures |t| <= |bytes|
    ensures start < |bytes| ==> |t| == |bytes| - start
  {
    if start < |bytes| then bytes[start..] else []
  }

  /** What is missing of a file completes exactly its first parts. */
  lemma Appended(kept: Bytes, hosted: Bytes)
    ensures kept + Tail(hosted, |kept|) == hosted <==> kept <= hosted
  {
    if kept <= hosted {
      assert hosted[..|kept|] + hosted[|kept|..] == hosted;
    }
  }

  /** `response.totalSize` of a Ready response (src/server/server.cpp:156-159). */
  function Remaining(bytes: Bytes, start: nat): nat {
    if |bytes| <= start then 0 else |bytes| - start
  }

  /** `reply` is everything the server sends for a download of `name` from `start`. */
  predicate AnswersDownload(files: Files, name: Name, start: nat, reply: Bytes) {
    && |reply| >= RESPONSE_SIZE
    && StatusOf(reply) == StatusCode(DownloadStatus(files, name))
    && (if DownloadStatus(files, name).Ready?
        then
          && TotalOf(reply) == Remaining(Hosted(files, name), start)
          && reply[RESPONSE_SIZE..] == Tail(Hosted(files, name), start)
        else reply[RESPONSE_SIZE..] == [])
  }

  /** A response header and the part of the file it announces make up the reply. */
  lemma ReplyAnswers(files: Files, name: Name, start: nat, padding: Bytes, total: nat)
    requires Sizable(files) && |padding| == 4
    requires DownloadStatus(files, name).Ready? ==> total == Remaining(Hosted(files, name), start)
    ensures var status := DownloadStatus(files, name);
      var rest := if status.Ready? then Tail(Hosted(files, name), start) else [];
      AnswersDownload(files, name, start, Response(status, padding, total) + rest)
  {
    var status := DownloadStatus(files, name);
    var rest := if status.Ready? then Tail(Hosted(files, name), start) else [];
    ResponseFields(status, padding, total, rest);
  }

  /** `reply` is everything the server sends for the request. */
  predicate Answers(files: Files, r: Request, reply: Bytes) {
    match r
    case Echo(data) => reply == data
    case Time => |reply| == TIME_SIZE
    case Download(position, name) => AnswersDownload(files, name, position, reply)
    case _ => reply == []
  }

  const DOT: Byte := 46
  const SLASH: Byte := 47
  const TILDE: Byte := 126

  /** The names `HandleUpload` refuses (src/server/server.cpp:208). */
  predicate Refused(name: Name) {
    name != [] && (name[0] == DOT || name[0] == SLASH || name[0] == TILDE)
  }

  /** Whether `std::ofstream` can open the path below the host directory. */
  predicate Writable(files: Files, name: Name) {
    var e := Find(files, name);
    e.Absent? || (e.Regular? && e.writable)
  }

  predicate Accepted(files: Files, name: Name) {
    !Refused(name) && Writable(files, name)
  }

  /** The entry after writing `bytes`; opening truncates but keeps an existing file's permissions. */
  function Written(files: Files, name: Name, bytes: Bytes): Files {
    files[name := Regular(bytes, Find(files, name).Regular? ==> Find(files, name).readable, true)]
  }

  lemma WrittenSizable(files: Files, name: Name, bytes: Bytes)
    requires Sizable(files) && |bytes| < U64
    ensures Sizable(Written(files, name, bytes)) && Sizable(files - {name})
  {
    forall n | n in files && n != name ensures |Hosted(Written(files, name, bytes), n)| < U64 {
      assert Hosted(Written(files, name, bytes), n) == Hosted(files, n);
    }
    forall n | n in files - {name} ensures |Hosted(files - {name}, n)| < U64 {
      assert Hosted(files - {name}, n) == Hosted(files, n);
    }
  }

  /** Writing again, or removing, undoes what was written before. */
  lemma WrittenAgain(files: Files, name: Name, before: Bytes, bytes: Bytes)
    requires name != []
    ensures Written(Written(files, name, before), name, bytes) == Written(files, name, bytes)
    ensures Written(files, name, before) - {name} == files - {name}
  {
  }

  lemma WrittenFound(files: Files, name: Name, bytes: Bytes)
    requires name != []
    ensures Find(Written(files, name, bytes), name).Regular? && Hosted(Written(files, name, bytes), name) == bytes
    ensures !Refused(name) ==> Accepted(Written(files, name, bytes), name)
  {
  }

  /** The hosted files after the request has been served. */
  function FilesAfter(files: Files, r: Request): Files {
    if r.Upload? && r.content != [] && Accepted(files, r.name) then Written(files, r.name, r.content) else files
  }

  /** Whether `Handle` returns true, so that the session goes on. */
  predicate Continues(files: Files, r: Request) {
    match r
    case Upload(name, content) => content != [] && Accepted(files, name)
    case Close => false
    case _ => true
  }

  /** `path.filename()`: what follows the last slash. */
  function FileName(path: Name): (n: Name)
    ensures SLASH !in n
    ensures SLASH !in path ==> n == path
    ensures |n| <= |path|
    ensures 0 !in path ==> 0 !in n
  {
    if SLASH !in path then path else FileName(path[1..])
  }

  /** The stamp fits the packet that offers it. */
  predicate StampOk(stamp: Stamp) {
    stamp.position < U64 && 0 !in stamp.path && 9 + |stamp.path| <= MAX_BODY
  }

  predicate StampsOk(stamps: map<Mac, Stamp>) {
    forall m | m in stamps :: StampOk(stamps[m])
  }

  /** The body of the packet that offers a stamp: the position and the bare file name. */
  function StampBody(stamp: Stamp): Bytes {
    NumberAndName(stamp.position, FileName(stamp.path))
  }

  /** What is sent to a client that has said who it is (src/server/server.cpp:42-61). */
  function Greeting(stamps: map<Mac, Stamp>, mac: Mac, padding: Byte): Bytes {
    if mac in stamps
    then Header(DOWNLOAD_RECOVERY, |StampBody(stamps[mac])|) + StampBody(stamps[mac])
    else [NONE, padding, 0, 0]
  }

  /** The stamps after the greeting: the offered one is used up, any other client's is dropped. */
  function StampsAfterGreeting(stamps: map<Mac, Stamp>, mac: Mac): map<Mac, Stamp> {
    if mac in stamps then stamps - {mac} else map[]
  }

  // ---------------------------------------------------------------- what the names above stand for

  /** The file name of a path is what follows its last slash. */
  lemma {:induction false} BaseName(dir: Bytes, base: Name)
    requires 47 !in base
    ensures FileName(base) == base && FileName(dir + [47] + base) == base
    decreases |dir|
  {
    var path := dir + [47] + base;
    assert path[|dir|] == 47;
    if dir == [] {
      assert path[1..] == base;
    } else {
      assert path[1..] == dir[1..] + [47] + base;
      BaseName(dir[1..], base);
    }
  }

  /** The reply to a download: status 0 and the rest of the file if there is a file that can be read, whether or not it
      can be written; status 2 for a directory, the host directory included; status 1 for everything else. */
  lemma ReplyStatus(files: Files, name: Name, start: nat, reply: Bytes)
    requires AnswersDownload(files, name, start, reply)
    ensures |reply| >= 16
    ensures var status := FromLittleEndian(reply[..4]);
      match (if name == [] then Special else if name in files then files[name] else Absent)
      case Absent => status == 1 && |reply| == 16
      case Special => status == 2 && |reply| == 16
      case Regular(bytes, readable, _) =>
        if !readable then status == 1 && |reply| == 16
        else
          && status == 0
          && FromLittleEndian(reply[8..16]) == (if start < |bytes| then |bytes| - start else 0)
          && reply[16..] == (if start < |bytes| then bytes[start..] else [])
  {
    hide FromLittleEndian;
  }

  /** Uploads are accepted under names that are not empty and do not begin with a dot, a slash or a tilde, if there is
      nothing of that name yet or a file that can be written; one that is replaced stays as readable as it was. */
  lemma AcceptedNames(files: Files, name: Name)
    ensures Accepted(files, name) <==>
      && name != [] && name[0] != 46 && name[0] != 47 && name[0] != 126
      && (name in files ==> files[name] == Absent || (files[name].Regular? && files[name].writable))
    ensures forall content :: Written(files, name, content) == files[name := Regular(
        content, name != [] && name in files && files[name].Regular? ==> files[name].readable, true)]
  {
  }

  /** A non-empty upload under such a name is stored, and the session goes on. Any other ends the session, and no file
      changes. */
  lemma UploadEffect(files: Files, name: Name, content: Bytes)
    ensures var r := Request.Upload(name, content);
      if content != [] && name != [] && name[0] != 46 && name[0] != 47 && name[0] != 126
         && (name in files ==> files[name] == Absent || (files[name].Regular? && files[name].writable))
      then
        && Continues(files, r)
        && FilesAfter(files, r) == files[name := Regular(
            content, if name in files && files[name].Regular? then files[name].readable else true, true)]
      else !Continues(files, r) && FilesAfter(files, r) == files
  {
  }

  /** Nothing else changes a file or ends a session, but a close. */
  lemma OtherEffects(files: Files, r: Request)
    ensures !r.Upload? ==> FilesAfter(files, r) == files && (Continues(files, r) <==> !r.Close?)
  {
  }
}
