# Verified core of a multiplexed transport

This project models, in Dafny, the part of the repository that carries many connections over one, from byte
containers up to the frame loops of the two ends, and a few stateful structures beside it; and it proves what
that code is for. `dafny verify dfyconfig.toml` checks all of it.

The tower, from the bottom:

* **Byte containers** (`Buffer`, `MultiBuffer`, `Reader`, `Writer`): buffers with two cursors over an array,
  lists of buffers split and merged in place, a buffered reader and a buffered writer.
* **Streams** (`Nonce`, `Sealing`, `Chunk`, `ChunkStream`, `Auth`, `AuthStream`, `AuthWire`, `Arrival`, `AuthCut`,
  `AuthNonce`): length-prefixed chunks, and authenticated ones with padding, nonce counters and soft reads; whole
  streams, and streams that are cut off.
* **Multiplexing** (`Address`, `Frame`, `MuxWriter`, `MuxInput`, `MuxReader`, `SessionManager`, `MuxWorker`,
  `MuxSession`, `MuxPicker`): the frame codec, a session's writer and what feeds it, the session table, the handlers
  and loops of server and client, and the picking of workers. `Demux`, `Delivery`, `Break`, `Interleave`, `Talk`,
  `Connection` and `Response` put the two ends together; `Notice` says what each tells the other about the end of a
  session, and `Closing` what becomes of outputs.

Beside it stand the two-way LRU (`Lru`), the replay filter (`Replay`), the DNS record cache (`DnsCache`), the
least-load selection (`LeastLoad`) and the round-robin picker (`ServerPicker`).

How it is built: what the source changes in place is a class here, with loops where the source has them. Each
method is proved against a function on values (`Streams`, `WriteBuffers`, `Chunks`, `Auth`, `MuxWrites`, `MuxReads`,
`MuxServes`, `Sessions` and so on): its contract ties the whole new state to that function of the old one. What the
code promises over runs, segmentations and interleavings is then proved about those functions. Quantifying over
the lists a source will hand out is quantifying over all segmentations; a link takes one write at once or refuses
it, by a script that is any function of the call number.

## What turned out false

Where a property one would expect does not hold, the code is kept as it is and the exact condition is proved:

* `BufferedReader.ReadByte` on an empty segment delivers a zero that was never sent (`Streams.RunConservesIff`).
* `Compact` tests lengths but copies what the room allows (`MultiBuffers.CompactConservesIff`).
* A chunk limit of 2^32 - 1 never takes effect (`Chunks.LimitTakesEffectIff`).
* With padding, after a packet too long to seal the accepted packets need not arrive (`Arrivals.RefusedLosesStep`):
  the refused one has used up a padding draw that the reader never makes. `Arrivals.ArrivesIff` says exactly which
  streams arrive, and `Arrivals.AllArriveIff` in which configurations all do. Where sizes are masked as well this
  holds as long as the masks match; `Arrivals.MisreadCanArrive` shows why it says nothing beyond.
* A stream that is cut off does not always end in an error. An authenticated one ends cleanly if the transport does
  and the cut is between two chunks or between the size and the body of one (`AuthCuts.CutArrives`,
  `AuthCuts.CleanEndIff`, `AuthCuts.CutLooksClean`); a chunked one does unless the cut is inside a size field
  (`Chunks.ChunkStreamCut`).
* After a New frame over UDP whose packet is longer than 2048 bytes, the server goes on in the middle of the packet
  (`MuxServes.FrameAlignment`, `MuxServes.DerailedAlignedIff`, `MuxServes.DerailHappens`). After a Keep frame like
  that the loop stops.
* Session ids repeat after 65535 allocations (`Sessions.IdsDistinctIff`).
* The LRU's value map is not kept up when a key gets another value (`LruCaches.PutExactIff`).
* A DNS cleanup can be observed by a lookup that asks for no family (`DnsRecords.CleanupObservableIff`).

Two bounds come out sharper than the interval they are about: acceptances of a value are at least one second more
than the replay interval apart (`ReplayWindows.AcceptancesApart`, for a positive interval), and the bound on live
sessions with k callers is reached (`Dispatches.LimitReached`).

## Model

| member | source | states |
|---|---|---|
| Connections.EndToEnd | common/mux/client.go:254-279 | From end to end: any number of sessions' goroutines write to a shared link in any order, whatever it refuses; the server's loop reads what the link took, cut up in any way, until the connection ends or breaks, within a frame included, while its sessions' own goroutines end and its outputs refuse as they will. Every output it opened holds a front part of exactly what its session was given to write, and the loop takes at most a turn for each frame and one more. If all the traffic came in and no frame stopped the loop, every session whose writes the link took and that nothing disturbed was received whole |
| Connections.QuietEndToEnd | common/mux/server.go:231-252 | If moreover the dispatcher serves everyone and no session's goroutine ends it, the loop runs to the end of the connection, and every session whose writes the link took was received whole |
| Responses.ReplyToEnd | common/mux/server.go:85-94 | The way back: any number of `handle` goroutines and the End frames of the server's loop on a shared link, and the client's loop, which opens, ends and closes sessions meanwhile, on any front part of what the link took. Every output of a session holds a front part of exactly what its goroutine on the server was given; and all of it, if there was a moment before the session ended when all its frames were handled and none had failed |
| Breaks.RunFronts | common/mux/server.go:204-252 | For both ends, on any front part of the bytes of any legal frames, after any number of turns: every output holds a front part of what the frames begun so far carried for its session, and the loop takes at most a turn for each frame and one more |
| Breaks.FrameCut | common/mux/server.go:104-229 | A frame that is cut off anywhere delivers at most a front part of its data, to its own live session; if that is no error yet, nothing is left on the stream |
| Breaks.CopyCut | common/buf/copy.go:92-122 | Copying data of which a part is missing: a front part of a stream goes out, and of a packet nothing; a second copy leaves nothing |
| Connections.FrontParts | common/mux/server.go:231-252 | The server's half of the front parts, for any interleaving of frames |
| Talks.TalkSpreads | common/mux/writer.go:92-131 | Whatever the schedule and the refusals, what a link has taken from its sessions' goroutines, and from a loop that sends End frames, is of each session a front part of its frames, in order, End frames, and nothing else; without the loop's frames it is an interleaving of front parts and closing End frames |
| Talks.SoloIsFetchInput | common/mux/client.go:254-279 | Alone on the link, the steps of a goroutine are those of fetchInput, and of handle: its writes up to the first that fails, and the Close of its writer |
| Interleavings.ManySessions | common/mux/server.go:104-252 | After any number of turns of the server's loop, for any number of client sessions with distinct ids, any interleaving of their frames, any segmentation, outputs and sessions failing or ending anywhere: every output the server opened holds a front part of exactly what its session's writer was given, and all of it while the session is live and all its frames are in |
| Interleavings.ManySessionsToTheEnd | common/mux/server.go:231-252 | The same when the loop has stopped, at the end of the connection or before: the table is closed, and every output still holds that, with the sessions live after the last frame in the place of those live now |
| Interleavings.UndisturbedSession | common/mux/server.go:104-252 | A session that no event ends, whose output refuses nothing and whose frames are all on the link has an output that holds exactly what was written when the loop is over, whatever happened to the others, as long as none of them stopped the loop |
| Interleavings.MergedLegal | common/mux/writer.go:92-131 | Whatever the interleaving, what the writers put on the link is legal for the server: well-formed frames, at most one New frame per id, and that first |
| Interleavings.MergedTame | common/mux/writer.go:92-114 | No frame of a packet session is longer than a buffer, so none stops the loop |
| Interleavings.LinkCarriesFrames | common/mux/writer.go:65-82 | The bytes of the writes on the link are the frames one after the other, each in one piece |
| Demux.Demultiplexing | common/mux/server.go:104-252 | The demultiplexing theorem for any list of legal frames: bytes in order, packets whole, nothing of another session |
| Demux.WholeConnection | common/mux/server.go:231-252 | The whole of a connection that carries any list of legal frames and then ends: the loop stops one turn after the last frame or at the frame that fails, closes the table, and leaves every output as it was before |
| Demux.RunSorts | common/mux/server.go:231-252 | The invariant of the loop over whole runs, for the server and the client: deliveries are sorted by session, live sessions are complete, and without a failure the loop is on a frame boundary |
| Demux.FrameSorts | common/mux/server.go:204-229 | Any one frame keeps the invariant; a frame that stops the loop still leaves every delivery a front part |
| Demux.EventsSort | common/mux/server.go:85-94 | Sessions ended, opened or closed between frames keep the invariant |
| Demux.AllFramesCarryAll | common/mux/writer.go:92-114 | All frames of a session carry exactly the bytes of all its writes, its non-empty packets one each, with one New frame at the front |
| Delivery.UndisturbedGetsAll | common/mux/server.go:111-202 | A session whose output refuses nothing and that no event ends has delivered everything, whatever happens to the others, even after its End frame |
| Delivery.AllServed | common/mux/server.go:104-252 | If every session is given an output and no packet is longer than a buffer, no frame stops the loop |
| Delivery.FrameThrives | common/mux/server.go:111-188 | A New or Keep frame of such a session leaves it live |
| MuxServes.FrameAlignment | common/mux/server.go:104-229 | On a frame boundary, for both ends, whatever the table and the ids used before: the loop stops on exactly two kinds of frames; on any other it has consumed exactly this frame, except after the first packet that is longer than a buffer, where it is aligned if and only if the packet's own bytes lead it there |
| MuxServes.DerailedAlignedIff | common/mux/server.go:148-153 | The exact condition of that accident |
| MuxServes.DerailHappens | common/mux/server.go:148-153 | A New frame to 10.0.0.1:53 over UDP with 2049 bytes, and a server in front of it that handles it without an error and then is not at what follows it |
| MuxServes.LongPacketDerails | common/mux/server.go:148-153 | The same for every server, parser, target and rest of the stream |
| MuxServes.KeepAligned | common/mux/server.go:157-188 | A Keep frame is consumed exactly, whatever its session's output does, unless it is too long a packet; then only its length is gone, and that is an error |
| MuxServes.NewAligned | common/mux/server.go:111-155 | So is a New frame that is served, unless it is the kind that derails |
| MuxServes.EndAligned | common/mux/server.go:190-202 | So is an End frame, and its session is gone |
| MuxServes.FrameEffect | common/mux/server.go:104-229 | A frame touches only the output of the session it names; a session still live afterwards got all of its data |
| MuxServes.KeepStep | common/mux/server.go:157-188 | What a Keep frame does to the sessions, with or without data, known or unknown session, output failing or not; what it does to the link is in `Notices.FrameTells` |
| MuxServes.NewStep | common/mux/server.go:111-155 | What a New frame that is served does to the sessions, including output failures while its data is copied |
| MuxServes.EndStep | common/mux/server.go:190-202 | An End frame delivers nothing and ends the session, and no other |
| MuxServes.KeepAliveStep | common/mux/server.go:104-109 | A keep-alive frame touches no session and is consumed exactly |
| MuxServes.HandleLinked | common/mux/server.go:204-229 | On any input, well formed or not: every session keeps its output, the stream only moves on, and a frame that does not fail makes progress |
| Notices.FrameTells | common/mux/server.go:157-188 | Of all well-formed frames, for both ends, exactly two kinds are answered: a Keep frame with data for a session that is not there, and one whose session's output refuses it. The answer is one write of the six bytes that end the session without an error, and the session is gone; no other frame makes a write on the link, or calls it |
| Notices.EventTells | common/mux/server.go:85-94 | Between frames, the end of a session by its own goroutine is told in the same way, with its id and whether it failed, and nothing else is |
| Notices.WriterEnds | common/mux/client.go:254-279 | Any writes of a session and the Close after them, whatever the link refuses: the last call of the link is the End frame of the session's id, with the error option if and only if the input failed, a call before was refused, or the session could not be announced |
| Notices.CloseTells | common/mux/writer.go:117-131 | Close: if the link takes it, one more write of metadata of four bytes, id, status 3, and option 2 or 0 |
| Notices.NoticeRead | common/mux/frame.go:92-145 | Which Unmarshal, on any segmentation and whatever follows, takes for an End frame of that id, without data, with the error option or without |
| Closings.RunTends | common/mux/server.go:104-252 | Over any run on legal frames, for both ends, with sessions that end, are opened or shut between frames: an output without a live session is closed, and when the loop has ended every output is |
| Closings.ConnectionCloses | common/mux/server.go:231-252 | Once a server's connection has ended, at its end or at a frame that fails, every output it opened is closed |
| Closings.HandleTends | common/mux/server.go:104-229 | Whatever a frame says and whatever follows it on the stream, it leaves no output open without its session, as long as New frames bring ids of their own |
| Closings.ApplyTends | common/mux/session.go:46-153 | Nor does anything that happens between frames; closing the table closes all |
| MuxServes.UnknownStops | common/mux/server.go:211-223 | A frame with a status that is none of the four stops the loop, and does nothing else |
| MuxServes.UnservedAligned | common/mux/server.go:126-132 | The data of a New frame that nobody serves is consumed all the same |
| MuxServes.RunQuietIsRun | common/mux/server.go:231-252 | The loop ends, and is the run without events |
| MuxReads.CopyStream | common/mux/reader.go:50-52 | Copying one frame's data as a stream: all of it goes to the output, or a proper front part does and the reader is still within the chunk |
| MuxReads.DrainRest | common/buf/copy.go:92-122 | The second copy, to Discard, then finds exactly the end of the chunk |
| MuxReads.CopyPacket | common/mux/reader.go:26-47 | Copying one frame's data as a packet: whole or not at all, one packet, and only the length is gone of one that is too long |
| MuxWorkers.MuxWorker.Run | common/mux/server.go:231-252 | The loop in place: table, outputs, link and stream end as the specification's run leaves them, and the table is closed |
| MuxWorkers.MuxWorker.HandleFrame | common/mux/server.go:204-229 | handleFrame, and the body of the client's loop, refine the specification: table, outputs, link and stream |
| MuxWorkers.MuxWorker.HandleKeep | common/mux/server.go:157-188 | handleStatusKeep refines it; and the session's input is as it was while the session is there, and interrupted and closed when it is gone |
| MuxWorkers.MuxWorker.HandleNew | common/mux/server.go:111-155 | handleStatusNew of the server refines it |
| MuxWorkers.MuxWorker.HandleEnd | common/mux/server.go:190-202 | handleStatusEnd refines it; the session's input is closed, and interrupted if and only if it was before or the frame has the error option |
| MuxWorkers.MuxWorker.HandleKeepAlive | common/mux/client.go:317-329 | handleStatusKeepAlive, and the client's handleStatusNew, refine it |
| MuxSessions.Handle | common/mux/server.go:85-94 | handle in place: the session's input is copied to a response writer, output and input are closed, and the table and outputs are those of the event `Ended`. The last call of the link is the End frame of the session, with the error option if and only if a call before was refused or the input failed |
| MuxSessions.FetchSession | common/mux/client.go:254-279 | fetchInput with its session: the goroutine's writes, then output and input closed and the session gone. The End frame has the error option, and the input is interrupted, exactly if the input failed, or ended in place of the first payload, a write was refused, or the session could not be announced |
| MuxWorkers.MuxWorker.StopSession | common/mux/server.go:179-183 | Interrupt and close: input interrupted and closed, output closed, session gone |
| MuxWorkers.MuxWorker.CloseAll | common/mux/session.go:118-135 | Closing the table closes the outputs of exactly the live sessions |
| MuxReaders.PacketReader.ReadMultiBuffer | common/mux/reader.go:26-47 | One packet of at most a buffer, then EOF |
| MuxReaders.Copy | common/buf/copy.go:92-122 | buf.Copy ends, and does what the specification's copy does to reader and writer |
| MuxReaders.NewReader | common/mux/session.go:155-160 | The reader by transfer type: a stream reader of one chunk, or a packet reader |
| MuxWrites.FramesCarryAll | common/mux/writer.go:92-114 | One write is cut into frames that carry exactly its bytes; the first is New unless sent before; in stream mode no frame is empty and all are at most 8192 bytes |
| MuxWrites.PacketsFramed | common/mux/writer.go:92-114 | In packet mode each frame carries one packet and no non-empty packet is left out |
| MuxWrites.WriteAllSends | common/mux/writer.go:92-114 | Over all the writes of a session, empty ones included, up to the first that fails: the link gets a front part of the session's frames, each whole and in one write; all of them if and only if no error is reported |
| MuxWrites.WriteAllEmits | common/mux/writer.go:92-114 | The writes offer the link exactly the session's frames, one after the other, until one is refused |
| MuxInputs.FetchInput | common/mux/client.go:254-279 | What fetchInput writes, in place: first payload or empty write, copy, and Close; the last call of the link is the End frame, with the error option under just those conditions |
| MuxInputs.GivenCarriesAll | common/mux/client.go:241-274 | Nothing of the input is lost on the way to the writer, or added, or split up otherwise, with or without a first payload in time; and something is given unless the input is at its end from the start, so that the session is announced |
| MuxInputs.Respond | common/mux/server.go:86-92 | The copy and the Close of handle, to a response writer, with the End frame under its conditions |
| MuxInputs.WriteFirstPayload | common/mux/client.go:241-252 | One write: empty when nothing came in time, else the first list whatever it holds; an input that ends first is an error, EOF included |
| MuxInputs.CopyInput | common/buf/copy.go:92-122 | buf.Copy to the writer: every list with content is written until one fails; EOF is no error |
| MuxWriters.MuxWriter.WriteMultiBuffer | common/mux/writer.go:92-114 | The loop over the list: exactly the frames of the specification go to the link, up to the first it refuses, and that error is reported |
| MuxWriters.MuxWriter.NextMeta | common/mux/writer.go:40-54 | The session is announced once, even if the frame never gets onto the link |
| MuxWriters.MuxWriter.Close | common/mux/writer.go:117-131 | One call of the link, and if it is taken one write of the six bytes that end the session, with the error option exactly if there was an error |
| MuxWriters.WriteFrame | common/mux/writer.go:65-82 | Metadata, length and data in one write |
| Frames.FrameRoundTripIff | common/mux/frame.go:63-145 | Unmarshal takes exactly a frame's encoding off the stream, whatever follows and however it is cut up; it gets the frame back if and only if its network is TCP or UDP and its address is readable |
| Frames.UnmarshalTakes | common/mux/frame.go:92-108 | On any stream, cut up in any way: the length and as many bytes, and no more; a length over 512 is an error that takes nothing more; a stream that ends in between leaves the record alone, with EOF or the error of the source between two fields and UnexpectedEOF within one |
| Frames.AcceptedIff | common/mux/frame.go:112-145 | Which metadata is accepted, and what it means: at least four bytes, and of a New frame at least eight, one of two networks, and an address that can be read |
| Frames.BodyBound | common/mux/frame.go:63-89 | The metadata is 4 to 264 bytes, so the limit of 512 is never met |
| FrameRecords.FrameMetadata.WriteTo | common/mux/frame.go:63-89 | The encoding, with its length patched in place |
| FrameRecords.FrameMetadata.Unmarshal | common/mux/frame.go:92-108 | The record and the reader after it; short, long and broken metadata included |
| FrameRecords.FrameMetadata.UnmarshalFromBuffer | common/mux/frame.go:112-145 | The fields that are assigned before each error, and the stale address of frames without a target |
| Addresses.AddressPortRoundTripIff | common/protocol/address.go:85-140 | Port and address, in either order, are read back if and only if the address is an IP, or a non-empty name of name characters that does not spell an IP |
| Addresses.AddressRoundTripIff | common/protocol/address.go:172-257 | The same for the address alone |
| Addresses.ReadIsWritten | common/protocol/address.go:172-257 | The other way round, for any bytes: what is read as an address has a known type and its full length, and is what writing it would give, but for a mapped IPv4 address, a name that spells an IP and a name of length 0 |
| Addresses.ReadIsProper | common/protocol/address.go:172-224 | What is read is an address the program can hold; a mapped IPv4 address comes out as IPv4 |
| Addresses.CutAddress | common/protocol/address.go:172-224 | An address that is cut off anywhere is not read: EOF between two fields, UnexpectedEOF within one |
| Addresses.CutAddressPort | common/protocol/address.go:85-132 | The same with its port, in either order |
| Addresses.ReadAddressFrom | common/protocol/address.go:172-224 | readAddress, with all its errors, a scratch buffer without room included, and the name of length 0 that is taken from the scratch buffer |
| Addresses.WriteAddressTo | common/protocol/address.go:226-257 | writeAddress: nothing is written when the address is refused, and as much as fits otherwise |
| Addresses.ReadAddressPortFrom | common/protocol/address.go:85-140 | ReadAddressPort |
| Addresses.ReadFullFrom | common/buf/buffer.go:260-269 | ReadFullFrom from another buffer |
| Arrivals.StreamRoundTrip | common/crypto/auth.go:119-360 | Any non-empty writes and then an empty one, in stream mode, or in packet mode if no packet is refused with the padding drawn for it, are read back exactly, and then EOF, for any segmentation; the reader ends where the writer stood when it had encoded the size of the end |
| Arrivals.Lockstep | common/crypto/auth.go:119-278 | Under any series of hard and soft reads, whenever one looks: having delivered the payloads qs, the reader is at the nonces, size nonces and keystream position at which the writer was when it had sealed exactly qs, or past the next size if it has read that ahead |
| Arrivals.PacketsNotRefused | common/crypto/auth.go:251-278 | Packets that fit a chunk with the longest padding are never refused, so all this holds of them |
| Arrivals.PacketsStayWhole | common/crypto/auth.go:318-345 | In packet mode what is delivered is the non-empty packets themselves |
| Arrivals.ArrivesIff | common/crypto/auth.go:119-360 | Any stream, with any packets refused: exactly what the writer accepted is delivered, and then EOF, if and only if at every chunk sent the padding draw at the writer's place is the one at the reader's place, but for a coincidence of sizes that is spelled out; with masked sizes, as long as every size is unmasked with the word that masked it |
| Arrivals.InStepArrives | common/crypto/auth.go:318-345 | So it arrives if nothing is refused, whatever the padding, and whatever is refused if there is no padding |
| Arrivals.AllArriveIff | common/crypto/auth.go:318-345 | Unless sizes are masked: in a configuration everything that is accepted always arrives if and only if there is no padding or its length never changes |
| Arrivals.MisreadCanArrive | common/crypto/auth.go:153-206 | With masks that do not match, a stream that arrives although the reader misreads a size: there the keystream alone does not decide |
| AuthWires.SealerLeads | common/crypto/auth.go:251-278 | Sealing any payloads leaves the writer past the chunks it sent, and ahead of a reader of those by one padding draw for every payload it refused, and by nothing else |
| AuthWires.ReadAllIff | common/crypto/auth.go:208-228 | Reading to the end delivers exactly the payloads, one entry each, and then EOF, if and only if every chunk is heard, and where the reader stands then |
| AuthWires.ReadInternalStep | common/crypto/auth.go:153-206 | One chunk: a chunk that is heard is delivered, or ends the stream if it is the empty one; one that is not never passes for what it was; a soft read that gives up leaves the sequence ahead as it was |
| AuthCuts.CutArrives | common/crypto/auth.go:119-228 | A stream of which nothing is refused, or without padding, that is cut off anywhere before its last byte, in any segmentation: exactly the payloads of the n whole chunks are delivered. If of the next chunk at least one byte of its size or of its body is there and something of it is missing, the end is UnexpectedEOF or the transport's own error; before a chunk, and between its size and its body, it is the transport's own; of the empty chunk that ends the stream the size is enough |
| AuthCuts.CutReadAll | common/crypto/auth.go:119-228 | The same for any chunks that are heard, refusals included |
| AuthCuts.CleanEndIff | common/crypto/auth.go:119-206 | On any input, well formed or not, one read ends cleanly in exactly four cases: the end was read before; nothing is left between two chunks; the size is that of the empty chunk; nothing is left after the size of another |
| AuthCuts.CutLooksClean | common/crypto/auth.go:119-228 | A stream cut between the size and the body of its first chunk delivers nothing and ends cleanly |
| AuthNonces.NoNonceTwice | common/crypto/auth.go:251-278 | Of all the sizes and payloads a writer seals, whatever it refuses in between, each is sealed under the nonce of a call of its own, and these nonces are all different until a generator has gone through a whole period |
| AuthNonces.NoWordTwice | common/crypto/auth.go:251-278 | Each chunk takes words of its own from the keystream, one for the length of its padding and one to mask its size, and no word serves two chunks |
| Auth.SoftReadStaysOff | common/crypto/auth.go:153-206 | On any input a soft read leaves the source alone |
| Auth.SoftReadHarmless | common/crypto/auth.go:153-206 | On any input a soft read that gives up leaves the next hard read the same result |
| Auth.SealRefusesIff | common/crypto/auth.go:251-278 | A chunk is refused exactly when it does not fit a buffer with the padding just drawn |
| Arrivals.UnpaddedArrives | common/crypto/auth.go:318-345 | Without padding, for any packets at all, any cipher and size parser and any segmentation: the non-empty packets that fit a chunk are delivered, in order, and the others are passed over |
| Arrivals.RefusedLosesStep | common/crypto/auth.go:318-345 | With padding, a packet of 2049 bytes and then one of a single byte: the first is refused, and the reader delivers the second with its padding |
| Arrivals.SendIsWire | common/crypto/auth.go:251-360 | The writes of a stream are the sealed form of their parts one after the other, but for the refused ones, and the parts carry exactly its bytes |
| AuthStreams.AuthenticationReader.ReadMultiBuffer | common/crypto/auth.go:208-228 | One hard read and up to 15 soft ones, refining `Auth.ReadMultiBuffer`; payloads in order, short ones in a buffer each |
| AuthStreams.AuthenticationReader.NextPayload | common/crypto/auth.go:153-206 | readInternal up to the payload refines `Auth.ReadInternal`: saved size, end flag, and every error, those of a stream that is cut off included |
| AuthStreams.AuthenticationReader.ReadSize | common/crypto/auth.go:119-132 | readSize: padding is drawn before the size is decoded |
| AuthStreams.AuthenticationReader.ReadChunk | common/crypto/auth.go:137-151 | readBuffer refines `Auth.ReadChunk`, the error of a chunk that is cut short included |
| AuthStreams.AuthenticationWriter.WriteMultiBuffer | common/crypto/auth.go:348-360 | At most one write on the sink, holding every chunk; nothing when a chunk of a stream is refused |
| AuthStreams.AuthenticationWriter.SealStream | common/crypto/auth.go:280-316 | The loop of writeStream |
| AuthStreams.AuthenticationWriter.SealPackets | common/crypto/auth.go:318-345 | The loop of writePacket |
| AuthStreams.AuthenticationWriter.Seal | common/crypto/auth.go:251-278 | seal |
| Sealing.SizeRoundTrip | common/crypto/chunk.go:42-72 | Decoding where the other end encoded gives the size back and leaves the decoder in the encoder's place, for plain, masked and sealed sizes |
| Sealing.SealRoundTrip | common/crypto/auth.go:60-85 | Opening in the same place gives the plain text back and keeps the two ends in step |
| Nonces.NoncesRepeatIff | common/crypto/auth.go:30-41 | Two nonces of a counter are equal if and only if their numbers agree modulo 256 to the length: any such many in a row are distinct |
| Nonces.NthValue | common/crypto/auth.go:30-41 | The k-th nonce is the little-endian form of start + k |
| Nonces.InitialNonces | common/crypto/auth.go:43-45 | The initial AEAD generator starts at zero |
| Nonces.BytesGenerator.Generate | common/crypto/auth.go:24-41 | The closures, in place on their slice |
| Chunks.ChunkStreamRoundTrip | common/crypto/chunk.go:103-168 | Non-empty writes and then an empty one are read back exactly, then EOF, for any segmentation, and what follows is untouched |
| Chunks.ChunksCarryAll | common/crypto/chunk.go:148-168 | A write's chunks carry exactly its bytes; none is empty unless the write is; all are at most 8192 bytes |
| Chunks.ReadStep | common/crypto/chunk.go:110-134 | One call of the reader |
| Chunks.LimitedReaderStops | common/crypto/chunk.go:110-134 | A reader limited to n chunks stops exactly after the n-th |
| Chunks.LimitTakesEffectIff | common/crypto/chunk.go:110-117 | On a stream with more chunks, a reader limited to n delivers exactly the first n if and only if n is not the largest 32-bit value; with that one it delivers everything |
| Chunks.ChunkStreamCut | common/crypto/chunk.go:103-134 | A stream that is cut off anywhere before its last byte: all that is there is delivered, whole chunks and what there is of the next; the end is UnexpectedEOF exactly when the cut is inside a size field of a transport that ended cleanly, and otherwise what the transport said |
| Chunks.CleanEndIff | common/crypto/chunk.go:110-134 | On any input, a call ends cleanly only when the limit is reached, the size is zero, or the source is at a clean end before a chunk, after its size or inside it |
| ChunkStreams.ChunkStreamReader.ReadMultiBuffer | common/crypto/chunk.go:110-134 | One call in place: bytes left, chunks counted, size decoder, underlying reader and result are those of `Chunks.ReadMultiBuffer`; the list handed out shares no buffer with the reader |
| ChunkStreams.ChunkStreamWriter.WriteMultiBuffer | common/crypto/chunk.go:148-168 | One call is one write on the sink, of size and slice alternating as in `Chunks.Write`; an error exactly when the sink refuses, and the size encoder has moved on all the same |
| Streams.RunConservesIff | common/buf/reader.go:49-115 | Over any run of Read, ReadByte, ReadMultiBuffer and ReadAtMost, delivered followed by pending is the stream, exactly when no ReadByte met an empty segment; each that did invented a byte |
| Streams.ReadByteConservesIff | common/buf/reader.go:54-58 | The same for one ReadByte |
| Streams.StepConserves | common/buf/reader.go:49-115 | One call delivers the next bytes, or reports the source's own error once nothing is left |
| Streams.ReadAtMostBound | common/buf/reader.go:100-115 | ReadAtMost never delivers more than asked for |
| Streams.ReadMultiBufferDrains | common/buf/reader.go:89-98 | ReadMultiBuffer takes all that is buffered and leaves the source alone, or else takes the next list whole |
| Streams.StepProgress | common/buf/reader.go:49-115 | Every call without an error leaves less to do |
| Streams.ReadFullDelivers | common/buf/reader.go:61-87 | io.ReadFull on this reader gives the next n bytes whatever the segmentation, and leaves the source alone when they are buffered |
| Readers.BufferedReader.Read | common/buf/reader.go:61-87 | From what is buffered if there is any, else from one fetch; what did not fit the slice stays buffered; the source's error otherwise |
| Readers.BufferedReader.ReadByte | common/buf/reader.go:54-58 | Read into one byte; a fetched segment without content gives a byte nobody sent |
| Readers.BufferedReader.ReadMultiBuffer | common/buf/reader.go:89-97 | All that is buffered, or else the next segment as it is; the list given away shares no buffer with the reader |
| Readers.BufferedReader.ReadAtMost | common/buf/reader.go:100-115 | A fetch only if nothing is buffered, then the first bytes up to the bound, the rest kept without its empty buffers; the list given away shares no buffer with the reader |
| Readers.BufferedReader.BufferedBytes | common/buf/reader.go:49-51 | The number of buffered bytes |
| Readers.BufferedReader.ReadFull | common/buf/reader.go:61-87 | The loop of io.ReadFull over it |
| WriteBuffers.RunConserves | common/buf/writer.go:84-195 | Over any interleaving of Write, WriteMultiBuffer, Flush and SetBuffered, sent followed by buffered is what was accepted; unbuffered means empty, and the buffer is never full between calls |
| WriteBuffers.PourConserves | common/buf/writer.go:90-158 | The copy loops lose nothing |
| WriteBuffers.PourBlocks | common/buf/writer.go:90-158 | What they send in between are full buffers |
| WriteBuffers.RunContentful | common/buf/writer.go:84-195 | Over any such run the sink never gets a write without content |
| WriteBuffers.UnbufferedPasses | common/buf/writer.go:127-134 | In unbuffered mode each list with content is one write on the sink, with its buffers as they were |
| Writers.BufferedWriter.Write | common/buf/writer.go:90-124 | The copy loop in place: buffer, mode, sink and count written are those of `WriteBuffers.Write`; when the sink refuses, the mode stays, the buffer is gone, the writes are a front part of those due, and the count includes what went down with the refused buffer |
| Writers.BufferedWriter.WriteMultiBuffer | common/buf/writer.go:127-158 | The same for a list of buffers: handed on as it is when unbuffered, else copied through the buffer, which is flushed when full |
| Writers.BufferedWriter.Flush | common/buf/writer.go:160-165 | What is buffered is one write on the sink, or nothing is when it is empty |
| Writers.BufferedWriter.FlushInternal | common/buf/writer.go:167-182 | flushInternal: the buffer is detached first, so a refusal loses its bytes |
| Writers.BufferedWriter.SetBuffered | common/buf/writer.go:185-194 | The mode changes; going unbuffered sends what is buffered first |
| MultiBuffers.SplitSizeConserves | common/buf/multi_buffer.go:173-204 | SplitSize keeps content and order and respects the size |
| MultiBuffers.SplitSizeNonEmpty | common/buf/multi_buffer.go:173-204 | What is split off is not empty when anything is there and no buffer is longer than the size |
| MultiBuffers.SplitSizeGreedy | common/buf/multi_buffer.go:173-204 | It is as large as it can be |
| MultiBuffers.SplitSizeProgress | common/buf/multi_buffer.go:173-204 | Splitting leaves less |
| MultiBuffers.DropBytesConserves | common/buf/multi_buffer.go:100-123 | SplitBytes reads off exactly the first n bytes |
| MultiBuffers.SplitSize | common/buf/multi_buffer.go:173-204 | In place: contents as in the specification, and every live buffer in exactly one of the two lists; a head longer than the size is copied out in part |
| MultiBuffers.SplitBytes | common/buf/multi_buffer.go:100-123 | In place: the first n bytes are read off, drained buffers are released, the others stay in order |
| MultiBuffers.SplitFirst | common/buf/multi_buffer.go:161-170 | The first buffer comes off whole, the others stay in order |
| MultiBuffers.MergeBytes | common/buf/multi_buffer.go:39-54 | The last buffer is filled up, then new ones are added; content is appended exactly |
| MultiBuffers.MergeMulti | common/buf/multi_buffer.go:30-36 | All buffers move over, once each |
| MultiBuffers.Copy | common/buf/multi_buffer.go:66-76 | The first bytes of the content |
| MultiBuffers.Len | common/buf/multi_buffer.go:226-236 | The length of the content |
| MultiBuffers.IsEmpty | common/buf/multi_buffer.go:239-246 | True exactly when there is no content |
| MultiBuffers.ReleaseMulti | common/buf/multi_buffer.go:57-63 | Every buffer is released |
| MultiBuffers.CompactConservesIff | common/buf/multi_buffer.go:137-158 | Compact conserves the content if and only if every merge it attempts has room; otherwise it loses bytes |
| MultiBuffers.CompactFitsAtFront | common/buf/multi_buffer.go:137-158 | Buffers of the standard size that start at the front always have it |
| MultiBuffers.CompactLosesBytes | common/buf/multi_buffer.go:137-158 | A buffer of which only the last byte is left, and one that holds a single byte: of the content [7, 8] only [7] stays |
| MultiBuffers.Compact | common/buf/multi_buffer.go:137-158 | In place: contents and cursors as in the specification, losses included; buffers merged away are released |
| Buffers.Buffer.Extend | common/buf/buffer.go:108-116 | The data follows the content |
| Buffers.Buffer.Write | common/buf/buffer.go:195-199 | As much of the data as fits follows the content |
| Buffers.Buffer.WriteByte | common/buf/buffer.go:202-209 | One byte, or an error and no change when full |
| Buffers.Buffer.BytesRange | common/buf/buffer.go:119-143 | What lies between two positions, negative ones counted from the end of the content; the positions may be anywhere in the array |
| Buffers.Buffer.Resize | common/buf/buffer.go:146-158 | The content between two positions stays; with positions outside it the buffer is good afterwards if and only if they are in the array |
| Buffers.Buffer.Advance | common/buf/buffer.go:161-166 | The content from a position on stays; the buffer is good afterwards if and only if the position is in the array and not past the content |
| Buffers.Buffer.ReadByte | common/buf/buffer.go:217-225 | The first byte, or EOF and no change |
| Buffers.Buffer.Read | common/buf/buffer.go:239-250 | The first bytes; a drained buffer rewinds |
| Buffers.Buffer.ReadFromBuffer | common/buf/buffer.go:253-257 | One Read of another buffer into the free tail |
| Buffers.Buffer.Clear | common/buf/buffer.go:86-89 | No content |
| Sessions.IdsDistinctIff | common/mux/session.go:46-61 | The i-th id handed out is i mod 65536: distinct and non-zero if and only if there are at most 65535 |
| Sessions.ClosedIsTerminal | common/mux/session.go:46-135 | A closed table stays closed and empty over every run |
| Sessions.RunSettles | common/mux/session.go:46-135 | Nothing is live in a closed table, over every run |
| Sessions.ClosesOnlyEmpty | common/mux/session.go:102-116 | CloseIfNoSession succeeds exactly on an empty table, and takes no session away |
| Sessions.CountsAll | common/mux/session.go:39-73 | Over any run the count is the number of sessions that ever came into the table, in 16 bits |
| Dispatches.LimitsHold | common/mux/client.go:281-315 | With k callers of Dispatch, each reading of the table a step of its own: live sessions stay below MaxConcurrency + k, and, while the 16-bit count cannot wrap, sessions ever allocated below MaxConnection + k |
| Dispatches.LimitReached | common/mux/client.go:281-315 | The bound on live sessions is exact |
| SessionManagers.SessionManager.Allocate | common/mux/session.go:46-61 | Nothing and no change on a closed table; else the count goes up, wraps at 65536, and is the id of a new session in the table |
| SessionManagers.SessionManager.Add | common/mux/session.go:63-73 | No change on a closed table; else the session is in it under its id and counted |
| SessionManagers.SessionManager.Remove | common/mux/session.go:75-88 | The id is free afterwards, the count stays, a closed table does not change |
| SessionManagers.SessionManager.Get | common/mux/session.go:90-100 | The session under the id, or none when there is none or the table is closed |
| SessionManagers.SessionManager.CloseIfNoSession | common/mux/session.go:102-116 | True on a closed table and on an empty one, which it closes; false and no change otherwise |
| SessionManagers.SessionManager.Close | common/mux/session.go:118-135 | Every session's input and output is closed, and nothing else of them changes; a closed table changes nothing |
| SessionManagers.Session.Close | common/mux/session.go:147-152 | Output and input are closed and the id is free |
| WorkerPicks.SecondPickIsFree | common/mux/client.go:76-115 | If some worker is not full, the second of two picks in a row returns one that is not |
| WorkerPicks.FirstPickFullIff | common/mux/client.go:86-97 | The first returns a full one exactly when the last worker of the list is full |
| WorkerPicks.SwapPermutes | common/mux/client.go:86-97 | A pick permutes the workers |
| MuxClients.ClientManager.Dispatch | common/mux/client.go:28-40 | With nobody interfering, two of the 16 attempts are enough; it fails only when every worker is full and the factory fails; one worker takes the session, the others are untouched |
| MuxClients.IncrementalWorkerPicker.PickAvailable | common/mux/client.go:86-124 | pickInternal: swap, or drop the closed ones and make a new one |
| MuxClients.IncrementalWorkerPicker.Cleanup | common/mux/client.go:66-74 | Exactly the closed workers go |
| MuxClients.IncrementalWorkerPicker.FindAvailable | common/mux/client.go:76-84 | The first worker that is not full |
| MuxClients.ClientWorker.Dispatch | common/mux/client.go:301-315 | A session is allocated unless the worker is full or its table closed |
| MuxClients.ClientWorker.FullIsDispatchesFull | common/mux/client.go:281-299 | IsFull is the test the limits are proved for |
| LruCaches.KeepsMostRecent | common/cache/lru.go:39-80 | Over any run of look-ups by key, look-ups by value and Puts the cache holds exactly the most recently touched of all keys ever put, up to its capacity, in that order |
| LruCaches.InsertIsMap | common/cache/lru.go:61-80 | Put on the ordered map: no key twice, never above capacity, only the last entry evicted |
| LruCaches.Lru.Put | common/cache/lru.go:61-80 | In place: list, key map and value map are those of `PutIn`, eviction included |
| LruCaches.PutExactIff | common/cache/lru.go:61-80 | An exact value map stays exact if and only if the pair is already there or neither its key nor its value is |
| LruCaches.RunStaysExact | common/cache/lru.go:39-80 | Over any run of look-ups and such Puts the value map is the exact inverse of the entries |
| LruCaches.FindSearches | common/cache/lru.go:50-59 | While it is, a look-up by value answers as a search of the entries |
| LruCaches.Lru.Get | common/cache/lru.go:39-48 | In place: a hit returns the entry's value and moves it to the front, a miss changes nothing |
| LruCaches.Lru.GetKeyFromValue | common/cache/lru.go:50-59 | In place: the value map is believed, even where it names an element that is gone; an element still there moves to the front |
| LruCaches.ReplacedValueIsLost | common/cache/lru.go:61-80 | It happens that a replaced value is not found |
| LruCaches.StaleValueIsFound | common/cache/lru.go:61-80 | It happens that a value finds a key that was evicted |
| ReplayWindows.AcceptancesApart | common/antireplay/replayfilter.go:35-58 | Two acceptances of the same value are more than the interval apart, whatever is checked in between and whatever the pools refuse without need |
| ReplayWindows.WindowIsTight | common/antireplay/replayfilter.go:35-58 | A value can be accepted again one second after the interval |
| ReplayWindows.FirstIsAccepted | common/antireplay/replayfilter.go:35-58 | With pools that refuse only what they hold, a value never checked before is accepted, over any run and with any clock |
| ReplayFilters.ReplayFilter.Check | common/antireplay/replayfilter.go:35-58 | In place: both pools, the swap flag and the time of the last swap are those of `ReplayWindows.Check`, the first call and the swap included |
| DnsRecords.CacheAnswersAsHistory | app/dns/nameserver_udp.go:70-244 | For any interleaving of responses, cleanups and a lookup with at least one family asked for, none of the cleanups from after the lookup, the cache answers as a scan of all responses would; what such an answer is, is in `DnsRecords.OneFamily` |
| DnsServers.LookupTells | app/dns/nameserver_udp.go:112-244 | From the requests to the answer, over any run of requests, responses and cleanups: a lookup for one family answers with the addresses of the first of those responses to requests for that family of the domain that expire last, the request still pending when it came; with its failing rcode, an empty response, or NotFound if it has expired; and NotFound if there was none |
| DnsRecords.OneFamily | app/dns/nameserver_udp.go:219-243 | With one family asked, the record of that family alone decides: its addresses, the reason there are none, or an empty response |
| DnsRecords.BothFamilies | app/dns/nameserver_udp.go:219-243 | With both asked, the addresses of both, IPv4's first; with none of either, IPv6's reason, or IPv4's if IPv6 has an empty response |
| DnsRecords.CleanupObservableIff | app/dns/nameserver_udp.go:70-109 | A cleanup changes an answer if and only if no family is asked for and it took the entry away |
| DnsRecords.ScanFindsFirstGreatest | app/dns/dnscommon.go:47-55 | In each family the scan finds the first received of the responses that expire last |
| DnsServers.ClassicNameServer.Cleanup | app/dns/nameserver_udp.go:70-109 | Exactly the expired records and requests go |
| DnsServers.ClassicNameServer.UpdateIP | app/dns/nameserver_udp.go:147-174 | In place: in each family the record that expires later stays, the stored one on a tie; other domains are untouched |
| DnsServers.ClassicNameServer.HandleResponse | app/dns/nameserver_udp.go:112-145 | Only a response to a pending request counts, and only once; cache and pending requests are those of the whole history |
| DnsServers.ClassicNameServer.AddPendingRequest | app/dns/nameserver_udp.go:180-187 | The request is pending under its id for 8 seconds, whatever was there |
| DnsServers.ClassicNameServer.FindIPsForDomain | app/dns/nameserver_udp.go:208-244 | findIPsForDomain, with the clock read once for each family; for one family the answer is what the leading response said, over all that has happened to the server |
| DnsServers.PendingIff | app/dns/nameserver_udp.go:70-187 | Over any run of requests, responses and cleanups, a response counts, and for which request, exactly when that request was made under its id, no other has taken the id, no response has come in under it, and no cleanup has found it more than 8 seconds old |
| DnsServers.ParseResponse | app/dns/dnscommon.go:167-228 | The loop over the answers: the record lives for ten minutes, or as long as the answer read that lives least, one without a time to live having no say |
| DnsServers.ReadStops | app/dns/dnscommon.go:184-225 | Answers are read up to the first the parser fails on, and the addresses are those of these answers |
| DnsServers.AbsorbsAll | app/dns/dnscommon.go:167-228 | The record expires with the first of the answers read and after ten minutes at the latest, and holds their addresses in order |
| LeastLoads.LessIsStrictTotalOrder | app/router/strategy_leastload.go:196-214 | The comparator is a strict total order on nodes with different tags |
| LeastLoads.LessPrefersBetter | app/router/strategy_leastload.go:196-214 | A lower cost comes first; so does a node that is no worse in cost, round trip, failures and samples, and better in one |
| LeastLoads.TagLessIff | app/router/strategy_leastload.go:196-214 | Tags compare by the first character in which they differ, a front part first |
| LeastLoads.SortedUnique | app/router/strategy_leastload.go:196-214 | So sorting has one result |
| LeastLoads.SelectionMeans | app/router/strategy_leastload.go:99-137 | The selection is exactly the nodes below the greatest baseline so far at the baseline applied, raised to the expected number if one is set; no node left out sorts before one that is in |
| LeastLoads.SelectionSize | app/router/strategy_leastload.go:99-137 | How many are selected: all when no more than the expected number are there, never fewer than expected otherwise, and without baselines exactly as many, or one |
| LeastLoads.AppliedIsFirst | app/router/strategy_leastload.go:117-132 | The baseline applied is the first that is enough, or the last |
| LeastLoads.SelectLeastLoad | app/router/strategy_leastload.go:99-137 | selectLeastLoad, with all nodes when too few are there, and the expected number when there is no baseline |
| LeastLoads.GetNodes | app/router/strategy_leastload.go:166-194 | The nodes of exactly the outbounds that are alive, are candidates and have a delay under the limit, if there is one, in whole milliseconds; sorted |
| LeastLoads.CandidatesAre | app/router/strategy_leastload.go:166-190 | That list before it is sorted: every node is that of such an outbound, with the scaler applied to the deviation of its health ping or to its delay, and every such outbound has its node |
| LeastLoads.CandidatesDistinct | app/router/strategy_leastload.go:166-190 | Outbounds with different tags give one node each |
| LeastLoads.PickOutbounds | app/router/strategy_leastload.go:77-81 | Both together: the selection is a front part of the sorted nodes of exactly those outbounds |
| ServerPickers.PickFindsIff | common/protocol/server_picker.go:72-89 | PickServer finds a server exactly when there is a valid one, loses none of them, and its next index is in range |
| ServerPickers.PrunedKeepsValid | common/protocol/server_picker.go:30-53 | GetServer drops invalid servers only |
| ServerPickers.PrunedIs | common/protocol/server_picker.go:30-53 | In place of an invalid server at the index comes the last valid one behind it, if there is one, and what was behind that is gone |
| ServerPickers.PicksAreFair | common/protocol/server_picker.go:72-89 | Any n picks in a row from n distinct valid servers give n different ones |
| ServerPickers.PicksGoRound | common/protocol/server_picker.go:72-89 | They go round the list |
| ServerPickers.ServerList.GetServer | common/protocol/server_picker.go:30-47 | The loop ends; exactly the invalid servers met at the index are dropped, each replaced by the last, and the server there, or none, is returned |
| ServerPickers.ServerList.RemoveServer | common/protocol/server_picker.go:49-53 | The last server takes the place of the removed one |
| ServerPickers.RoundRobinServerPicker.PickServer | common/protocol/server_picker.go:72-89 | In place: list, server and next index are those of `ServerPickers.Pick`, the return to index 0 included |

## Left out

- Sockets, readv, pipes, gRPC, TUN, HTTP and QUIC clients, logging, statistics and configuration: the source of a reader is any list of segments and an end error, the sink of a writer any script of refusals.
- Cipher internals: an AEAD is an ideal pair, opening what it sealed under the same nonce; the key stream behind size masks and padding lengths is any sequence of 16-bit words, and padding bytes are any bytes.
- ChunkSizeDecoderWithOffset: the constant offset of a size decoder is taken to be 0.
- Destination slices: bytes read into a caller's slice are returned as a value; `dst` aliasing of Seal and Open is not modelled.
- Buffer pools: a buffer is released once and never reused; the deferred releases of lists that were handed on are left out, and so are nil entries that the source leaves behind in a slice.
- 32-bit overflow of `MultiBuffer.Len` and the limit of 64 Mi entries in a list are left out.
- SplitFirstBytes, ReadFrom, WriteTo and the UDP splitter of BufferedReader: only the default splitter is modelled.
- MultiBuffers.SplitSize: requires, as the source does by panicking, that a head longer than the size leaves a slice that fits a standard buffer; Chunks and MuxWrites therefore ask for buffers of at most 8192 bytes.
- MultiBuffers.Compact: requires the buffers after the first to hold something, because the source panics on an empty one.
- AuthStreams.AuthenticationWriter.WriteMultiBuffer: requires authenticator and size parser to have nonces of the right size and room for a payload in a buffer; the source panics or does not end otherwise.
- AuthStreams.AuthenticationReader.ReadMultiBuffer: where a padding longer than its chunk makes the source panic, the model reports an error.
- Addresses.ReadAddressFrom: net.ParseAddress is a parameter; the type parser option of address parsers is left out.
- MuxWorkers.MuxWorker.Run: the loop is proved on its own; what other goroutines do between frames is in `MuxServes.Run`, and `MuxSessions` has the methods of the sessions' own. A session ended in the middle of a frame is covered by outputs that refuse from some call on.
- SessionManagers.Session.Close: an input is two flags here, closed and interrupted, and what comes out of it is a list of segments beside them; interrupting an output counts as closing it.
- MuxServes.FrameAlignment: is about well-formed frames of at most 65535 bytes of data; on other input `MuxServes.HandleLinked` says what is kept.
- MuxInputs.FetchInput: it is a parameter whether the first payload came in time.
- MuxWorkers.MuxWorker.HandleNew: that the input of a session whose first data could not be copied is interrupted is in the contract of `Feed`, because such a session is not in the table afterwards.
- Arrivals.ArrivesIff: with masked sizes and masks that do not match it does not say what arrives, because that depends on the bytes of the padding and on where the transport ends (`Arrivals.MisreadCanArrive`).
- Links.Send: a refusal is never io.EOF, which buf.Copy would take for a success; the pipes used as outputs do not refuse with it.
- MuxClients.ClientManager.Dispatch: assumes that nobody interferes and that no worker has closed its table without being done; the periodic cleanup task only as `Cleanup`.
- Dispatches.LimitsHold: says nothing about the total once MaxConnection + k - 1 exceeds 65535, where the 16-bit count wraps and the limit no longer binds.
- LeastLoads.GetNodes: the sorting algorithm of the standard library is replaced by an insertion sort, which gives the only possible result on different tags; the floating-point cost scaler is a parameter.
- ReplayFilters.ReplayFilter.Check: pools are sets that never forget between resets, and may refuse without need; inside the cuckoo filter nothing is modelled.
- AuthCuts.CutArrives: is about streams that the reader follows; of packets refused with padding `AuthCuts.CutReadAll` says the same for chunks that are all heard.
- DnsServers.LookupTells: needs cleanups not to come from after the lookup, and a domain that is not the empty string, which the source passes over.
- DnsServers.ClassicNameServer.HandleResponse: parsing the message is left out but for the loop over its answers; publishing to waiting queries is left out.
- ServerPickers.ServerList.GetServer: the validity of a server is a flag that does not change during a call.
- Locks and `sync.Map`: methods are atomic, except where a reading of the table is a step of its own (`Dispatches`).
