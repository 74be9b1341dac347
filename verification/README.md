# A resumable file-transfer protocol, verified

A server hosts a directory; clients connect over TCP, say who they are by a six-byte identifier, and ask for echoes, the
time, downloads and uploads. A download that breaks off leaves a *recovery stamp* at the server, which is offered to
that client when it comes back next; the client then goes on from the size of the file it already has. This project
models that protocol and proves what it keeps, over one call, one session and whole runs.

## How the model is built

Two views of the same code share one vocabulary (`Exchange`: what a request means, what answers it, what becomes of the
hosted files).

* **The methods.** `FileServer`, `FileClient`, `Packets`, `Connections`, `FileStreams`, `Commands`, `Options` and
  `Sockets` are classes and methods with the source's fields, loops and branches. A `Connection` is one end of a TCP
  connection (section 2.2 of RFC 9293): `incoming` is everything that will still arrive before the stream ends, and the
  operating system chooses how it is cut into pieces and when a send fails. Each method is proved against functions of
  the bytes that arrive and of the state it starts from. `EndToEnd` puts client and server together.
* **The machine.** `Machine` and `World` are one server, any number of clients, every connection ever made and every
  byte under way. A step is one `Send`, `Receive` or `ReceiveAll`, or something the world does: a connection breaks and
  loses any part of what is under way, a client is killed, connects, types a command. `Conversation` is the invariant of
  one connection and why the client's calls keep it, `ServerCalls` why the server's do, and `World` puts them together.
  `Deliveries` says what a session delivers while it lasts. `Resume`, `Stamps`, `Lag`, `Progress` and `Recovery` draw
  the conclusions about whole runs, and `Limits` gives the runs that show why the conditions of `Recovery` are needed.
  `Refinement` ties the machine's server to the session that `FileServer` is proved against, replies and broken
  connections included, and `ClientRefinement` its client to what `FileClient` proves of `Client::Download`, in both
  directions.
* **Secondary components.** `Tokenizer` and `Commands` (the console), `Options` (the server's command line), `Sockets`
  (who owns which descriptor).

## Assumptions

* Streams are reliable and ordered. `Receive` returns at least one byte unless the stream has ended; `ReceiveAll`
  returns less than was asked for only at the end of the stream. A send delivers all or nothing, and once it has failed,
  the connection delivers nothing more; in the machine, calls fail only on a connection that has broken, where a send
  may also be accepted and lost.
* Requests fit the 8192-byte buffers. Where the code goes on with a handle that `CheckFail` has destroyed, with a body
  that was cut short, or with one that overruns the buffer, the model sets `undefined` (`Undefined` in the machine) and
  claims nothing from there on. Where a receive loop of the server repeats itself for ever, because `Receive` returns 0
  without an error (src/server/server.cpp:214 and 233), it sets `spinning` and stops.
* The host directory is a map from names to entries: different names, with or without slashes, are different files, and
  the empty name is the directory itself. Hosted files change through uploads only.
* One client process uses a download directory. A client that is killed leaves any first part of the file it was
  writing.
* The time is a parameter: what the clock says at each request, in the methods as a number, in the machine as its bytes.
  Connections are accepted in the order they were made. Numbers in memory are little-endian; 16, 32 and 64-bit limits
  are written out.

## Where the code does less than it intends

* The client refuses a reply only if nothing of it arrives (src/client/client.cpp:67, 77 and 100). Where a stream breaks
  inside a download's response header, the rest of it is what the buffer held before, and on a blank buffer that is
  Success: `FileClient.BrokenReply` says exactly when, `FileClient.BlankBufferReportsSuccess` and
  `Resume.TornReplyHappens` that it happens. `Resume.CopiesAreFirstParts` tells the two kinds of Success apart as
  `Loaded` and `Torn`.
* A resumed download is appended to whatever copy there is, and comes out whole exactly if that is a first part of the
  hosted file; `Client::Download` returns Success in any case: `Progress.ResumeCanFinish`,
  `FileClient.DownloadCompletes`, `EndToEnd.ResumeAfterUpload`, and `EndToEnd.MixedCopy` for an input of the methods. In
  every run in which each client has an identifier of its own and only bare file names are downloaded, it always is a
  first part, whoever uploads what and when: `Recovery.ResumesAreWhole`, `Recovery.LoadedIsHosted`. Neither condition
  can be dropped, since a stamp is kept by the identifier and offered by what follows the last slash:
  `Limits.SharedIdentifierMisleads`, `Limits.NestedNameMisleads`.
* The server leaves a session without closing the connection. A request can be brought to its end exactly if no request
  in front of it ends the session, as an upload does that is empty or refused: `Progress.RequestCanFinish`. Otherwise it
  is never answered: `Progress.NeverFinishes`, `Progress.WaitsForEver`, `Progress.EmptyUploadStrands`.
* A console number too large for its type is accepted as zero (src/client/console.h:72-73): `Commands.NumberArrives`,
  `Commands.PortTooLarge`. A server port from 2^32 on may be accepted as another one: `Options.PortAsTyped`.
* Moving onto an open socket or opening it again loses its descriptor, and a moved-from socket keeps its state:
  `Sockets.Socket.MoveFrom`. Any sequence of operations loses exactly as many descriptors as it gave to sockets that
  held one, and none if it only ever opens, accepts into and moves to sockets that cannot hold one:
  `Sockets.UseSockets`.

## Model

| member | source | states |
|---|---|---|
| `Bytes.StoreLoad` | src/core/packet.h:40-47 | storing a number to an integer field and loading it gives the number modulo what the field holds |
| `Bytes.LaterWeighsMore` | src/core/packet.h:40-47 | the bytes of a field stand in little-endian order |
| `Bytes.UntilNulFinds` | src/core/message.h:24-38 | a NUL-free name followed by a NUL is read back whole, whatever follows |
| `Bytes.UntilNulIs` | src/core/message.h:24-38 | a C string read stops at the first NUL, or at the end |
| `Messages.HeaderRoundTrip` | src/core/packet.h:13-20 | opcode and 16-bit length of a header are read back |
| `Messages.NumberAndNameRoundTrip` | src/core/message.h:23-38 | the number and the name of a Download, Upload or DownloadRecovery body are read back |
| `Messages.RequestRoundTrip` | src/server/server.cpp:74-136 | decoding the packet of any well-formed request gives that request's opcode, length and arguments, and the bytes behind it are its content |
| `Messages.ResponseFields` | src/core/message.h:40-49 | status and size of a download response are read back, and what follows it is the rest |
| `Messages.RequestBytes` | src/core/message.h:11-37 | every request on the wire byte by byte: opcodes 1 to 5, a padding byte, the length, the layout of the body, the content |
| `Messages.FittingRequests` | src/server/server.h:16 | which requests fit: bodies up to 8188 bytes, names up to 8179 without a NUL, 64-bit numbers |
| `Messages.ResponseBytes` | src/core/message.h:45-54 | the 16 bytes of a download response: status 0, 1 or 2 in four bytes, four bytes of padding, the size |
| `Messages.OpcodesMean` | src/server/server.cpp:119-136 | what each opcode makes of any body: 1 to 4 mean something, every other opcode nothing |
| `Exchange.ReplyAnswers` | src/server/server.cpp:141-200 | header and announced rest together are the reply a download is owed |
| `Exchange.BaseName` | src/server/server.cpp:48 | the file name of a path is what follows its last slash: of any directory, a slash and a name without one, that name |
| `Exchange.ReplyStatus` | src/server/server.cpp:141-170 | in any reply to a download the status is 1 if there is nothing of that name or the file cannot be read, 2 for a directory, and 0 for every other file, writable or not; then size and bytes are the rest of the file behind the position |
| `Exchange.AcceptedNames` | src/server/server.cpp:204-228 | uploads are accepted under names that are not empty and begin with none of `.`, `/`, `~`, if there is nothing of that name or a file that can be written; a replaced file stays as readable as it was |
| `Exchange.UploadEffect` | src/server/server.cpp:203-249 | a non-empty upload under such a name is stored and the session goes on; any other ends it and changes nothing |
| `Packets.LengthField` | src/core/packet.h:57-73 | after any appends the length field is their total modulo 2^16, equals it exactly up to 65535 bytes, and `GetSize` equals the buffer length exactly up to 65531 |
| `Packets.PacketRoundTrip` | src/core/packet.h:27-62 | a packet built from a number and a NUL-free name, appended as a view or as a C string, gives back opcode, number and name, for every length that fits 16 bits |
| `Packets.BuildProxy.Append` | src/core/packet.h:33-55 | every form of append adds exactly its bytes, sizes cut to 16 bits |
| `Packets.BuildProxy.Complete` | src/core/packet.h:57-62 | only the length field changes |
| `Framing.ParseEncoded` | src/server/server.cpp:74-87 | framing a stream that starts with an encoded request finds that request and its exact length |
| `Framing.ScriptOfRequests` | src/server/server.cpp:74-136 | from well-formed requests sent back to back a session serves exactly that list and goes on with what follows, as long as none ends it |
| `Framing.ScriptUpToEnding` | src/server/main.cpp:111 | otherwise exactly the requests up to the first that ends the session, leaving the rest unread |
| `Framing.WholeRequests` | src/server/main.cpp:111 | any list of complete requests is a stream a session can serve to its end, the end of the stream included; all of it is served up to the first that ends the session, and nothing is left if none does |
| `Framing.ChunksJoin` | src/server/server.cpp:186-197 | the sends of a file are as few as the buffer allows, none empty or too long, and add up to the file |
| `Framing.AnswersEach` | src/server/main.cpp:111 | each reply of a session answers the request beside it by the files as the requests before it left them |
| `Framing.ServedOfList` | src/server/main.cpp:111 | what is served of a list: all of it, or up to the one request that ends the session |
| `Connections.Connection.Send` | src/core/socket.cpp:363-373 | all or nothing, and nothing after a failure |
| `Connections.Connection.Receive` | src/core/socket.cpp:375-385 | the next bytes of the stream, at least one unless it has ended, land in the buffer and nothing else changes |
| `Connections.Connection.ReceiveAll` | src/core/connection.h:51-53 | as many bytes as asked for, or all there are |
| `FileStreams.SendNext` | src/server/server.cpp:188-191 | the next bytes of the file go out in one send, or none do |
| `FileServer.Server.CheckFail` | src/server/server.cpp:89-114 | timeouts, a call to be tried again, an unreachable, refused or reset connection drop the client, any other failure is reported; the client in session is the last of the vector, so an eviction drops that client and swaps nothing |
| `FileServer.Server.Evict` | src/server/server.cpp:100-108 | for any client: the last handle is dropped, with buffer and identifier swapped but not the connection; nothing is swapped exactly if the client is the last |
| `FileServer.EvictedLast` | src/server/server.cpp:101-107 | an eviction drops the failing connection if and only if its client is the last |
| `FileServer.Server.Greet` | src/server/server.cpp:42-61 | what a client is sent by way of greeting, and which stamps are left; where sending fails, it gets nothing or the header of an offer |
| `FileServer.Server.Listen` | src/server/server.cpp:29-72 | the identifier is byte for byte the first six bytes, missing ones are zero; the new handle is the last of the vector and its index is returned; unless the connection breaks the client is accepted and greeted |
| `FileServer.Server.SendFile` | src/server/server.cpp:186-197 | either the whole rest of the file goes out in the expected pieces, or a stamp records exactly how much of it did |
| `FileServer.Server.HandleDownload` | src/server/server.cpp:141-201 | the reply is the one owed for the name and position that stood in the buffer before it was overwritten, its status 1 for an absent or unreadable file, 2 for a directory, 0 otherwise; an interrupted download leaves the stamp for what was sent |
| `FileServer.StampRecordsSent` | src/server/server.cpp:191-194 | what went out of a download that broke off is the header and the bytes of a readable file from the start to the position in its stamp |
| `FileServer.Server.SendResponse` | src/server/server.cpp:172-178 | the response header goes out whole, or nothing does and the failure is taken |
| `FileServer.Server.ReceiveSome` | src/server/server.cpp:231-242 | a round of a receive loop takes the next bytes of the stream; only where the stream has ended does it fail, lose its handle or start to spin |
| `FileServer.Server.IgnoreContent` | src/server/server.cpp:210-218 | the content of a refused upload is consumed to its last byte and no further |
| `FileServer.Server.Store` | src/server/server.cpp:230-243 | the file becomes exactly the next bytes of the stream; a broken upload removes it |
| `FileServer.Server.HandleUpload` | src/server/server.cpp:203-249 | true exactly if the size is not zero, the name neither empty nor beginning with `.`, `/` or `~`, there is nothing of that name or a file that can be written, and all the content is there; then the file is exactly the next bytes and all later ones are unread; a refused upload is consumed and changes nothing; name and size are those that stood in the buffer before it was overwritten |
| `FileServer.Server.ReceivePacket` | src/server/server.cpp:77-84 | header and body of the packet at the front of the stream, however it arrives |
| `FileServer.Server.Reply` | src/server/server.cpp:119-138 | an echo or a time goes out whole and the session goes on, or nothing goes out |
| `FileServer.Server.HandleTransfer` | src/server/server.cpp:127-132 | a download or an upload read out of the buffer is handled as its meaning says |
| `FileServer.Server.HandlePacket` | src/server/server.cpp:116-139 | dispatch: each request answered, files changed and the session kept or ended as its meaning says; a request for the time gets the time, eight bytes |
| `FileServer.Server.Handle` | src/server/server.cpp:74-87 | one round of a session handles exactly the request at the front of the stream; where the stream ends before a request is whole, nothing is sent, and files change only by the loss of an upload that broke off; where the connection breaks, either nothing of the reply went out, or it was a download, what went out is a first part of its reply, and the stamp records how much of the file that was |
| `FileServer.Server.Session` | src/server/main.cpp:111 | for any stream, as long as nothing undefined happens: on an unbroken connection a session serves exactly the script of the stream, replies in order, each request for the time with the time it was served at, and stamps as they were; on one that breaks it has served a first part of the script, files and replies accordingly, and the request behind that broke off as for `Handle`. If the stream consists of complete requests, whether one of them or the end of the stream ends it, nothing undefined happens, and the files and the unread stream are the script's |
| `FileServer.SessionBrokeMeans` | src/server/main.cpp:111 | over requests sent back to back, a session that breaks has answered a first part of them, and the next one broke off |
| `FileServer.BrokeOffMeans` | src/server/server.cpp:116-201 | a request that broke off changed no file; if a reply has begun or a stamp been made it was a download, and the position is where the part of the file that went out ends |
| `FileServer.Server.Drive` | src/server/main.cpp:104-114 | between sessions there is at most one stamp; while no connection breaks there is none, whatever the clients send; and where they send complete requests, the files are what the sessions make of them one after another |
| `FileServer.ClientsInTurn` | src/server/main.cpp:104-114 | in the meaning of `Drive` each client has the requests it sends served, up to the first that ends its session, before the next client |
| `FileServer.GreetingClears` | src/server/server.cpp:43-56 | with at most one stamp in store, none is left once a client is greeted |
| `FileServer.BodyInBuffer` | src/server/server.cpp:127-132 | the structures laid over the buffer read what was received |
| `FileServer.RefusedByFirst` | src/server/server.cpp:208 | looking at the first character decides whether a name is refused |
| `FileClient.Client.Connect` | src/client/client.cpp:41-58 | the identifier is sent first, or connecting fails |
| `FileClient.Client.HandleDownloadRecovery` | src/client/client.cpp:28-39 | the result and the name follow from the greeting in the stream alone, not from what the buffer held |
| `FileClient.Client.Echo` | src/client/client.cpp:60-70 | what is sent, what is read and what is returned, short replies included |
| `FileClient.Client.Time` | src/client/client.cpp:72-80 | the same for the time, a signed number |
| `FileClient.Client.ReceiveFile` | src/client/client.cpp:116-125 | the copy grows by exactly the announced bytes, or the stream ends first |
| `FileClient.Client.Download` | src/client/client.cpp:82-140 | the result, the download directory and the unread stream as functions of what arrives; nothing but the named file changes, an unopened file changes nothing, and a failure removes it |
| `FileClient.Client.Upload` | src/client/client.cpp:142-175 | what is sent is the encoded upload under the base name, in header, body and pieces; a broken send is reported |
| `FileClient.Client.Close` | src/client/client.cpp:177-182 | the close request is sent, or it is not and false is returned |
| `FileClient.Client.ConnectCmd` | src/client/clientConsole.cpp:39-82 | the client goes on with an offered download exactly if the answer is `y` or `Y`, from the size of the file it has, and ends as the download does, however much of the reply arrives; on any other answer nothing beyond the identifier is sent and the directory stays; where the identifier cannot be sent, nothing changes, and where the request cannot, the copy is removed |
| `FileClient.OfferReceived` | src/server/server.cpp:43-49 | a client is offered exactly the stamp held for it, under what follows the last slash of its path; otherwise nothing; and the bytes of both |
| `FileClient.DownloadCompletes` | src/client/client.cpp:100-140 | the reply owed for a download, arrived whole, is consumed exactly; the result is Success for a file that can be read, NotRegularFile for a directory, NoSuchFile for anything else; an offered file is appended to the copy, which becomes the hosted file if and only if it was a first part of it; a refusal leaves none |
| `FileClient.BrokenReply` | src/client/client.cpp:100-140 | a reply that breaks off is reported as Success if and only if it breaks inside the header and what the buffer held completes that to Ready with size zero; the copy is then whole exactly if nothing was missing |
| `FileClient.BlankBufferReportsSuccess` | src/client/client.cpp:100-104 | one byte of a reply on a blank buffer is Success |
| `FileClient.RecoveryCompletes` | src/client/clientConsole.cpp:56-81 | an interrupted download, offered again and gone on with, ends with the whole file |
| `EndToEnd.LockStep` | src/server/server.cpp:116-249 | after any exchange in lock step both streams are empty and the session goes on unless the request ends it |
| `EndToEnd.RequestServed` | src/server/server.cpp:74-249 | what serving each request comes to, spelled out: the echo, the eight bytes of the time, status, size and bytes of a download for every kind of entry, the entry an upload leaves, the end of the session |
| `EndToEnd.OtherPacketEnds` | src/server/server.cpp:133-136 | a packet of any other opcode, whatever its body, sends nothing, changes nothing and ends the session |
| `EndToEnd.TimeArrives` | src/client/client.cpp:72-80 | the time the client reads is the server's, negative ones included |
| `EndToEnd.IdentifierArrives` | src/server/server.cpp:38-56 | a client is known by the identifier it sends, whatever follows; with a stamp of another client in store it is offered nothing and that stamp is dropped |
| `EndToEnd.UploadStores` | src/client/client.cpp:142-175 | an upload of any path stores the file byte for byte under what follows its last slash and keeps the session, if and only if the file is not empty, the name neither empty nor beginning with a dot or a tilde, and there is nothing of that name or a file that can be written; otherwise nothing changes |
| `EndToEnd.UploadThenDownload` | src/server/server.cpp:141-249 | a file uploaded and downloaded again is the same file |
| `EndToEnd.ResumeAfterUpload` | src/client/clientConsole.cpp:78-81 | a download resumed after the file was uploaded anew succeeds, and its copy is the new file if and only if what there was is a first part of it |
| `EndToEnd.MixedCopy` | src/client/clientConsole.cpp:78-81 | an input on which the copy mixes both files |
| `Conversation.ClientKeeps` | src/client/client.cpp:28-182 | every call of the client keeps the invariant of its connection and of its directory |
| `ServerCalls.ServerKeeps` | src/server/server.cpp:29-249 | every call of the server keeps the invariant of the connection it serves and changes only files that are being uploaded |
| `World.StepKeeps` | src/server/main.cpp:104-114 | every action of the world keeps the invariant of the whole system |
| `World.RunKeeps` | src/server/main.cpp:104-114 | it holds in every reachable state |
| `World.AnyStart` | src/server/main.cpp:80-102 | runs start with any files of 64-bit sizes and any clients |
| `World.BreaksAnywhere` | src/core/socket.cpp:363-385 | a connection may break anywhere in what is under way, each way |
| `World.KilledAnywhere` | src/client/client.cpp:116-125 | a client killed in a download may leave any first part of what it has written |
| `Deliveries.SessionsCurrent` | src/server/server.cpp:141-201 | in every run, what the client in session waits for is the reply its download is owed by the files as they now stand, whatever has been uploaded before |
| `Deliveries.ClientDelivers` | src/client/client.cpp:60-140 | on an intact connection every call of the client leaves it at its request or with what the request delivers: the echo it sent, or the part of the copy it started with and the rest of the hosted file |
| `Refinement.ServerSimulates` | src/server/server.cpp:74-249 | every call of the machine's server leaves the session it is in the one that was begun: files, what has been sent and what is left of the stream are those of serving the same script |
| `Refinement.SessionRefinesScript` | src/server/main.cpp:111 | however the stream is cut into pieces, the calls serve its requests in order, each with the reply it is owed; a session at rest has served the whole script, and its files, its replies and its unread stream are the script's |
| `Refinement.BreakRefinesMethod` | src/server/server.cpp:172-197 | a send refused on a broken connection ends the machine's session in what `Session` says of one that breaks, the stamp included |
| `Refinement.BrokenUploadRefinesMethod` | src/server/server.cpp:231-239 | an upload that breaks off takes its file with it in the machine as in the methods |
| `Refinement.GreetRefinesMethod` | src/server/server.cpp:38-56 | the machine's greeting is the methods': the identifier, the bytes sent, the stamps left |
| `ClientRefinement.DownloadRefinesMethod` | src/client/client.cpp:82-140 | however the stream is cut into pieces, the calls of the machine's client from a download's request to the prompt leave what `Client::Download` leaves on some content of its buffer, or the request could not be sent |
| `ClientRefinement.MethodIsReached` | src/client/client.cpp:82-140 | the other way round, for every content of the buffer |
| `Resume.CopiesAreFirstParts` | src/client/client.cpp:82-140 | from every reachable state on in which no upload under the name is under way and the client's copy is in order - absent or a first part, whole if just reported as `Loaded`, with no reply to a download of it under way: over every run in which nobody uploads under it again, the hosted file stays, the copy stays a first part of it, and is the whole file whenever a download has succeeded on a reply it could read - whoever uploaded it before, and whatever copies other clients have |
| `Resume.InitiallyInOrder` | src/server/main.cpp:104-114 | to begin with this is so for every client and every name |
| `Resume.HostedStays` | src/server/server.cpp:222-249 | a hosted file changes only if some client uploads under its name: from every reachable state without one under way |
| `Resume.NoUploadUnserved` | src/server/server.cpp:203-249 | what that means: the server is not storing it, and neither the connection it reads from nor one that waits holds an upload of it that has not been served |
| `Resume.TornReply` | src/client/client.cpp:100-107 | the other kind of Success, from every reachable state: the copy is as it was, and is the whole file exactly if it is a first part of it and the request asked for nothing more; in the runs of `CopiesAreFirstParts` it is a first part |
| `Resume.TornReplyHappens` | src/client/client.cpp:100-107 | from every reachable state in which a download's reply is on its way, a break behind one byte leads there exactly if that byte is zero, as it is if the reply is Ready; and the reply is the one the hosted files call for, while the session goes on or nobody uploads under the name |
| `Resume.StreamsInStep` | src/server/server.cpp:74-87 | in every run, with the client at its prompt and the server waiting on an intact connection, nothing is on its way back, and what is on its way up is exactly the requests not yet served |
| `Resume.ServedAsAsked` | src/server/server.cpp:74-136 | in every run, however the streams are cut into pieces, the server has decoded a first part of what was asked, in order |
| `Resume.UploadArrives` | src/server/server.cpp:230-248 | the step that finishes an upload leaves exactly the client's file hosted and exactly the following requests unread |
| `Stamps.StampsInEveryRun` | src/server/server.cpp:42-61 | in every run there is no stamp during a session and at most one between sessions, and the history of stamps is orderly |
| `Stamps.OfferedOnceToItsMaker` | src/server/server.cpp:43-61 | in every run a stamp is offered right after it was made or never, only to the identifier it was made for, and between two offers there is a making |
| `Stamps.StampPosition` | src/server/server.cpp:191-196 | a stamp's position is the start plus what was sent, which is the file's size less what is left, below that size and below 2^64 |
| `Lag.StampCoversCopy` | src/server/server.cpp:191-194 | in every run a stamp's position is at least the length of the copy its owner has at that moment |
| `Lag.StepLag` | src/client/client.cpp:116-125 | every action keeps the copy no longer than what the send loop has sent, less what is under way |
| `Progress.RequestCanFinish` | src/server/server.cpp:74-249 | no deadlock: from every reachable state of a session on an intact connection the two ends can by themselves finish the request in hand, if and only if it needs no reply or no request still to be served ends the session; and what it then has delivered is exactly what the hosted files say, an offered file being whole if and only if the part of the copy the download went on with is a first part of it |
| `Progress.CallMoves` | src/server/server.cpp:74-249 | every call of either end that changes anything brings the request in hand nearer to its end, ends it with what it delivers, or ends the session through a request in front of it |
| `Progress.NoEndlessExchange` | src/server/server.cpp:74-249 | so under any schedule the request comes to such an end after finitely many calls, or to a call that has to wait |
| `Progress.NeverFinishes` | src/server/server.cpp:204-219 | otherwise nothing anybody does finishes it, short of breaking the connection or killing the client |
| `Progress.ResumeCanFinish` | src/client/clientConsole.cpp:56-81 | a resumed download can be brought to its end, changing no hosted file: the rest of an offered file is appended to the copy, which is whole if and only if the copy was a first part of it; of a file that is not offered no copy is left |
| `Progress.WaitsForEver` | src/server/server.cpp:207-219 | after a session the server has left, a client's request is never answered, whatever anybody does short of breaking the connection or killing the client |
| `Progress.EmptyUploadStrands` | src/server/server.cpp:207 | an empty upload followed by another request leads there from every quiet session |
| `Recovery.StepRecovers` | src/server/server.cpp:42-61 | every action keeps it so that the download in session, the offer, and the stamp between sessions are for a readable file of which the client they belong to has a first part |
| `Recovery.ResumesAreWhole` | src/client/clientConsole.cpp:56-81 | recovery works: in every run with an identifier for each client and bare file names, whatever is uploaded, broken or killed, a client is only offered a readable file of which it has a first part, and if it says yes the two ends can bring the download to its end with the whole file |
| `Recovery.LoadedIsHosted` | src/client/client.cpp:82-140 | in the same runs every download that succeeds during its session on a reply it could read, fresh or resumed, leaves exactly the file then hosted |
| `Limits.NestedNameMisleads` | src/server/server.cpp:48 | for every name with a slash, and any replacement of the file of its bare name by one of which that is no first part: a run of one client that ends in Success on a copy that is not the hosted file |
| `Limits.SharedIdentifierMisleads` | src/server/server.cpp:43-56 | for every bare name, and any such replacement of its file: such a run of two clients with one identifier |
| `Limits.Inputs` | src/client/clientConsole.cpp:56-81 | an input of each kind: files of one and two bytes |
| `Tokenizer.TokensAreRuns` | src/client/console.cpp:19-39 | the words of a line are exactly its maximal runs of non-spaces, in order |
| `Tokenizer.SpaceCharacters` | src/client/console.cpp:19-39 | six characters part words: the space and those from tab to carriage return |
| `Tokenizer.SpreadTokens` | src/client/console.cpp:19-39 | words set apart by any white space come back as they were |
| `Commands.ArgIterator.Next` | src/client/console.cpp:19-39 | the first word left, and then the rest; no access goes beyond the terminating NUL |
| `Commands.ParseArg` | src/client/console.h:78-101 | parsing succeeds exactly if there are enough words and each is accepted; every argument goes to its own slot, and a first part of the words is used up |
| `Commands.Exec` | src/client/console.h:116-124 | the handler is called exactly then |
| `Commands.LastRegistrationWins` | src/client/console.h:156-165 | a name is known exactly if it was registered, and stands for the command registered last under it |
| `Commands.Console.RegisterClientCommands` | src/client/clientConsole.cpp:6-20 | the client's console knows exactly its seven commands with their parameters, `connect` with two words and a 16-bit number, `download`, `upload` and `echo` with a word, the others with none |
| `Commands.ClientCommandsFound` | src/client/clientConsole.cpp:10-16 | each of them is found under its name: none hides another or is hidden by a built-in one |
| `Commands.Console.HandleCommand` | src/client/console.cpp:59-84 | `help`, `h`, `exit`, `quit` and `q` are built in, the last three leave; unknown commands and empty lines; any other command is called exactly if its arguments are all there |
| `Commands.NumberArrives` | src/client/console.h:72-73 | a word is taken for a number if and only if it is all digits, and arrives as typed if and only if its type holds it; a larger one arrives as zero |
| `Commands.ShownReads` | src/client/console.h:72-73 | a number as it is written reads as that number |
| `Commands.ConnectArguments` | src/client/clientConsole.cpp:11 | `connect` gets protocol, host and port as typed, and port zero for a port above 65535; with fewer words or a port that is no number it is not called |
| `Commands.PortTooLarge` | src/client/console.h:72-73 | 65536 arrives as port zero |
| `Options.ParseServerArgs` | src/server/main.cpp:31-67 | the result is a fold over the settings the arguments spell out; no access goes beyond the arguments |
| `Options.RequirePort` | src/core/args.h:81-95 | a missing value is not used up, a bad one is |
| `Options.OptionNames` | src/server/main.cpp:41-62 | `-port` and `-p` set the port, `-dir` and `-d` the directory, `-udp` the protocol, `-help` and `-h` ask for help; every other argument is passed over |
| `Options.Mistakes` | src/core/args.h:81-95 | only a missing port or directory, and a port that is no number or does not fit, are mistakes |
| `Options.CommandLine` | src/server/main.cpp:31-67 | a whole command line in either spelling of its options |
| `Options.MissingValues` | src/server/main.cpp:31-67 | one without its values leaves the configuration alone and fails; an unknown option does not matter |
| `Options.EverySettingCounts` | src/server/main.cpp:31-67 | success if and only if every setting is in order; UDP and help if and only if asked for |
| `Options.LastPortWins` | src/server/main.cpp:42-47 | the last valid port wins |
| `Options.LastDirWins` | src/server/main.cpp:48-53 | the last directory wins |
| `Options.SettingsConcatenate` | src/core/args.h:29-43 | an option takes the next argument if that is no option, and nothing else depends on its neighbours |
| `Options.PortAsTyped` | src/core/args.cpp:46-68 | a port is read as typed if and only if it fits 16 bits |
| `Sockets.Socket.Open` | src/core/socket.cpp:235-269 | every open socket has a live descriptor of its own; opening an open one loses the old descriptor |
| `Sockets.Socket.Close` | src/core/socket.cpp:271-283 | only a descriptor in use is closed, and only once |
| `Sockets.Socket.Accept` | src/core/socket.cpp:347-361 | the accepted descriptor belongs to the new socket alone |
| `Sockets.Socket.MoveFrom` | src/core/socket.h:282-289 | a descriptor changes hands; exactly one that the target still held is lost, a self-move included; the source keeps its state |
| `Sockets.Socket.SwapWith` | src/core/socket.h:194-199 | two sockets exchange everything and nothing is lost |
| `Sockets.AcceptConnection` | src/core/server.cpp:24-36 | accepting a client loses no descriptor and shares none |
| `Sockets.Perform` | src/core/socket.h:178-289 | any one operation on any sockets, carried out by the methods, does what the operation means, keeps every descriptor with one owner, and loses exactly the descriptor it overwrites |
| `Sockets.OpKeeps` | src/core/socket.h:178-289 | the same of what the operation means, whatever the system answers: one descriptor is lost if it is given to a socket that holds one, none otherwise |
| `Sockets.TraceKeeps` | src/core/socket.h:178-289 | through any sequence of operations every descriptor has one owner at every moment, and as many are lost as were overwritten |
| `Sockets.CarefulKeeps` | src/core/socket.h:178-289 | a sequence that opens, accepts into and moves to only sockets that cannot hold a descriptor overwrites none, whatever the system answers |
| `Sockets.OpEffects` | src/core/socket.h:178-289 | what each operation does to descriptors and sockets, and when it overwrites one |
| `Sockets.HeldByOne` | src/core/socket.h:178-289 | a live descriptor is leaked, or held by exactly one socket |
| `Sockets.CarefulOrNot` | src/core/socket.h:178-289 | sequences that are careful, and sequences that are not |
| `Sockets.PerformAll` | src/core/socket.h:178-289 | a sequence of operations carried out by the methods is such a sequence of moments, from the first to the last |
| `Sockets.UseSockets` | src/core/socket.h:178-289 | from closed sockets, through any sequence of operations, to their destruction: every descriptor has one owner at every moment, what is still in use at the end is what was lost on the way, as many as the operations that gave a descriptor to a socket that held one, and none if the sequence is careful |

## Left out

- Connections.Connection.Send: does not model a partial send of a TCP socket, because the send loops subtract the chunk size and not the returned count.
- FileServer.Server.Drive: takes a finite list of connections, because the loop of the source has no end.
- The UDP path (src/core/server.cpp:42-53, src/core/client.cpp:15-26): datagrams are lost and the listening socket is shared, so the stream assumption does not hold.
- Eviction of a client that is not the last one, as a claim about several clients: `swap` leaves the connections behind (`FileServer.Server.Evict`). Every session runs with its client last, and `CheckFail` requires it.
- Directories below the host directory, absolute upload and download paths, permissions beyond readable and writable, full disks and read errors.
- System calls, name resolution and finding the hardware address.
- Echo and time on the machine's client side, which `ClientRefinement` does not tie to the methods.
- Converting and printing the time.
- Bitrate output, console text, help texts and name tables.
- Text to number conversion inside `std::stoul`, which is a parameter of `Options.ParseServerArgs`; of `std::from_chars` the digits of an unsigned number are modelled.
- The name tables and descriptions of registered commands: a command is its parameter types.
- Hosted files changed by anything but an upload.
- The two sends of an offer, one step in the machine: a break loses any end of what is under way, so nothing new can be seen between them.
