# Protocol proofs for wh

Dafny models of the protocols of this repository, and proofs about them. Six connected
pieces are modelled:

* **Framing and the proxy.** The incremental parsers of the proxy, mount, rsync and tunnel
  commands as lawful codecs (`Framing`, `WireFormats`); the SOCKS5 handshake of RFC 1928,
  sections 3 to 6 (`Socks`); the multiplexer object (`Proxy`); two-party runs over byte
  links that deliver in chunks of any size (`ProxyRuns`); what such a run loses
  (`ProxyDrops`); sessions that carry everything (`ProxySession`); and the whole way from the
  bytes of a SOCKS client to the address that is dialled (`SocksRuns`).  UTF-8 is checked
  against an encoder of characters (`CodePoints`).
* **Rsync.** The protocol object and the comparison of manifests (`Rsync`), whole runs of
  both ends (`RsyncRuns`), what becomes of a run that is left to go on (`RsyncProgress`),
  the messages byte by byte (`RsyncWire`), and two runs of a fully concrete sync that go
  wrong (`RsyncExample`).
* **Mailbox, phases, request queue.** Dispatch over an array that its handlers edit
  (`Mailbox`, `Hex`), numbered messages through a relay that delays, reorders, duplicates
  and echoes (`Phases`), how each receive ends (`PhaseResults`), replies and calls
  (`Correlation`), and the promise chain of the browser extension (`RequestQueue`).
* **Dilation.** Records, subchannels and the manager (`Dilation`), runs of two ends that may
  both open subchannels (`DilationRuns`), what handlers are given (`DilationHandlers`),
  sessions that hand over everything (`DilationSession`), the runs in which their ids collide
  (`DilationCollisions`), and the accept queue (`Listener`).
* **SPAKE2.** Byte and scalar arithmetic with the constants of section 5.1 of RFC 8032, the
  search for the blinding point, and key agreement over an abstract group (`Spake2`).
* **Nonces.** The 24-byte counter (`Nonce`).

The two-party models share one shape. Each stretch between two awaits is one atomic step; a
step that is not enabled changes nothing; a run is any list of steps; a timeout is a step
that may be taken at any moment. Objects whose methods update their fields are classes whose
methods are proved against functions on values, and the runs are made of those functions.

Where the code does not do what its documentation or its obvious purpose says, the model
follows the code, a lemma says exactly when the property holds, and another gives an input
for which it does not:

* `src/wh/cli/rsync.py:150` opens the path as received, so a destination other than the
  working directory receives its files one level too high (`RsyncRuns.ConvergesExactlyWhen`,
  `RsyncExample.SyncBelowADirectoryFails`).
* `src/wh/cli/rsync.py:134` drops a manifest nobody is waiting for.  From the resumption of
  `run_rsync` to the creation of the future nothing yields, so the one window is between
  `connectionMade` and that resumption at its two awaits: a manifest that the library delivers
  there is lost, and the run never completes.  Whether it does depends on the order of its
  callbacks, which the model leaves open (`RsyncProgress.CompletesUnlessEarly`,
  `RsyncExample.SyncCanStall`).
* `src/wh/cli/tunnel.py:199` sends a bare OPEN header before the real message, which the peer
  takes for the beginning of another request; hardly any request survives that
  (`WireFormats.TunnelOpenChannelArrivesExactlyWhen`, `WireFormats.TunnelFirstChannelIsLost`).
* `src/wh/cli/proxy.py:303` takes a short read of a domain name for the whole name
  (`Socks.DialsWhatWasRequested`, `Socks.ShortNameDialsAnotherHost`).
* `packages/mailbox/src/index.js:395` walks the live handler array, so the handler behind a
  served waiter does not see the message (`Mailbox.EveryoneIsCalledUnless`,
  `Mailbox.AllServedUnlessAdjacent`, `Mailbox.ListenerIsPassedOver`).
* `packages/protocol/src/index.js:357` uses up a send phase even if the send is rejected, so
  later requests of a queue await the wrong phase
  (`RequestQueue.AwaitsItsOwnPhaseUnlessASendWasRejected`, `RequestQueue.OneRejectedSendShifts`).
* `src/wh/cli/proxy.py:153-159` drops what a target says before `src/wh/cli/proxy.py:333` has
  attached the writer (`ProxyDrops.DropsExactlyWhenUnready`, `ProxyDrops.FirstWordsAreLost`).
* `packages/mailbox/src/index.js:251-259` takes a ciphertext that happens to be valid UTF-8 for
  text, and its message is lost (`Phases.ReceivesThePayloadExactlyWhen`, `Phases.EmptyMessageIsLost`).
* `packages/dilation/src/index.js:149` starts ids at 1 on both ends, so an id that
  both have issued carries the records of two subchannels
  (`DilationCollisions.StreamsAreSafeExactlyUnlessShared`).

`dafny verify dfyconfig.toml` checks the whole project.

## Model

| member | source | states |
|---|---|---|
| Framing.DrainConcat | src/wh/cli/proxy.py:81-106 | parsing a buffer in two instalments gives the frames, and leaves the bytes, of parsing it whole, for every lawful codec |
| Framing.FeedIsDrain | src/wh/cli/proxy.py:81-106 | chunks fed one by one into a buffer that is emptied of whole frames after each give what parsing their concatenation gives |
| Framing.ChunkingIsInvisible | src/wh/cli/mount.py:89-108 | two ways of cutting one byte string into chunks dispatch the same messages and leave the same buffer |
| Framing.DrainLossless | src/wh/cli/rsync.py:106-130 | frames and remainder spell the input: no byte is lost, repeated or invented |
| Framing.RoundTrip | src/wh/cli/rsync.py:94-130 | a list of well-formed frames parses back to exactly itself with an empty buffer |
| Framing.DrainOfEncodeAll | src/wh/cli/proxy.py:73-106 | a list of well-formed frames in front of any bytes parses to itself, then whatever those bytes hold |
| Framing.RestIncomplete | src/wh/cli/proxy.py:88-92 | the parsing loop never stops in front of a whole frame |
| Framing.FramesFit | src/wh/cli/proxy.py:91-95 | a frame cut from a buffer is no longer than the buffer |
| Framing.SendOnLink | src/wh/cli/proxy.py:73-79 | a frame written at one end queues up behind everything in flight |
| Framing.DeliverOnLink | src/wh/cli/proxy.py:81-106 | any chunk hands over the first frames in flight, in order, and keeps all others in flight |
| Framing.FrameReader.OnData | src/wh/cli/mount.py:89-108 | the buffer and the parsing loop of an object hand out exactly the frames of the stream and keep exactly the rest |
| WireFormats.FixedLawful | src/wh/cli/proxy.py:73-95 | the type, id, length header format, with an id of any width (2 for the proxy, 4 for mount, 0 for rsync), is a lawful codec: frames are recognised, stable under more bytes, and are exactly the bytes they are cut from |
| WireFormats.FixedStable | src/wh/cli/mount.py:96-103 | a whole frame is read the same way whatever follows it |
| WireFormats.FixedRecognises | src/wh/cli/rsync.py:94-99 | what is packed under this header is read back, field by field |
| WireFormats.FixedCuts | src/wh/cli/rsync.py:108-115 | a frame that was read packs to the very bytes it was read from |
| WireFormats.FixedLayout | src/wh/cli/proxy.py:77-79 | the bytes of a message of the proxy, of mount and of rsync: type, id and length, most significant byte first, then the payload |
| WireFormats.TunnelLawful | src/wh/cli/tunnel.py:83-128 | the tunnel format, whose frame length depends on the message type, is a lawful codec |
| WireFormats.TunnelStable | src/wh/cli/tunnel.py:85-112 | a whole tunnel frame of any type is read the same way whatever follows it |
| WireFormats.TunnelRecognises | src/wh/cli/tunnel.py:69-76 | well-formed tunnel messages of every type are read back, field by field |
| WireFormats.TunnelCutsData | src/wh/cli/tunnel.py:88-98 | a DATA frame is cut off exactly where its four-byte length says |
| WireFormats.TunnelCutsOpen | src/wh/cli/tunnel.py:100-112 | an OPEN frame is cut off exactly behind host and port |
| WireFormats.TunnelCutsBare | src/wh/cli/tunnel.py:114-128 | every other message, unknown ones included, is its bare header |
| WireFormats.TunnelOpenLayout | src/wh/cli/tunnel.py:197-202 | the bytes of the real open message: type 1, channel, length of the host, host, port |
| WireFormats.TunnelLayout | src/wh/cli/tunnel.py:69-76 | the bytes of data (type 4) and of every other message |
| WireFormats.TunnelOpenAlone | src/wh/cli/tunnel.py:197-202 | the full open message on its own arrives with its host and port |
| WireFormats.TunnelOpenChannelIsMisread | src/wh/cli/tunnel.py:196-202 | what the parser of the peer makes of every `open_channel`: behind the bare header it takes the second header for a one-byte host and a port, and the real host and port for further messages; from channel 0x8000 on it never gets past the header |
| WireFormats.TunnelOpenChannelArrivesExactlyWhen | src/wh/cli/tunnel.py:196-202 | false property, with its exact condition: the request is among the parsed messages if and only if the channel is below 0x8000, the host is the byte id / 256 and the port is id % 256 * 256 + 1 |
| WireFormats.TunnelFirstChannelIsLost | src/wh/cli/tunnel.py:196-202 | an input where it fails: channel 1, host "ab", port 80 |
| Proxy.ParseOfConnectPayload | src/wh/cli/proxy.py:108-120 | the address packed into CONNECT is the address the peer dials, for every host below 256 bytes and every port |
| Proxy.ConnectOnTheWire | src/wh/cli/proxy.py:193-202 | what `connect` puts on the wire, byte by byte, for every host below 256 bytes and every port |
| Proxy.ConnectIsAnswered | src/wh/cli/proxy.py:108-137 | from the bytes of a request, whatever follows it, to the address dialled and the bytes of the answer: OK if it was reached, FAIL if not, nothing if the host is no UTF-8 |
| Proxy.ShortConnectFails | src/wh/cli/proxy.py:110-117 | a request that is cut short is answered with FAIL, and nothing is dialled |
| Proxy.HandleAllAppend | src/wh/cli/proxy.py:86-106 | handling frames in instalments is handling them in one go |
| Proxy.ProxyProtocol.SendMessage | src/wh/cli/proxy.py:73-79 | appends one packed frame, or nothing where packing raises |
| Proxy.ProxyProtocol.HandleFrame | src/wh/cli/proxy.py:97-106 | one dispatch: new state for every message type, known or unknown channel, with or without a writer |
| Proxy.ProxyProtocol.OnData | src/wh/cli/proxy.py:81-106 | all whole frames are handled in order, the rest stays buffered, nothing is sent |
| Proxy.ProxyProtocol.StartConnect | src/wh/cli/proxy.py:193-202 | takes a fresh id, registers channel and future, sends CONNECT, or registers and sends nothing where packing raises |
| Proxy.ProxyProtocol.HandleConnect | src/wh/cli/proxy.py:108-137 | FAIL for short payloads and failed dials, OK and a registered writer for successful ones, silence for undecodable hosts |
| Proxy.ProxyProtocol.FinishForward | src/wh/cli/proxy.py:179-185 | CLOSE is sent and the channel is forgotten |
| ProxyRuns.TargetGetsAPrefix | src/wh/cli/proxy.py:153-214 | in every run, with any interleaving and any chunking, the bytes written to the target of channel c are a prefix of what the SOCKS client sent on c, with the rest in flight while the channel is up |
| ProxyRuns.ClientGetsABlock | src/wh/cli/proxy.py:139-185 | in every run, what the SOCKS client is given on c is one contiguous block of what the target of c sent; only a front part before the writer is attached, or a tail after the close, is missing |
| ProxyRuns.AnsweredAsDialled | src/wh/cli/proxy.py:139-151 | in every run, `connect` is answered true on a channel if and only if its target was reached, and false only after its dial has failed |
| ProxyRuns.RepliesAreTrue | src/wh/cli/proxy.py:319-330 | in every run, a SOCKS client is told "connected" only if its target was reached, "host unreachable" only if the dial failed or was not answered in time, and nothing is forwarded before "connected" |
| ProxySession.SessionRun | src/wh/cli/proxy.py:187-349 | for every address and whatever both parties say in whatever order there is a run in which the address is dialled, every byte of each is written at the other end in order, none is dropped, and after both have hung up, in either order, no channel is left |
| ProxySession.RefusalRun | src/wh/cli/proxy.py:135-151 | for every address there is a run in which it is dialled in vain, `connect` is answered false, the SOCKS client is told so, and no channel is left |
| ProxySession.TimeoutRun | src/wh/cli/proxy.py:204-214 | for every address there is a run in which the answer comes too late: the client is told "unreachable" although its target was reached, and the channel of the server stays |
| ProxyDrops.DropsExactlyWhenUnready | src/wh/cli/proxy.py:153-159 | exact condition: in every run, bytes of a target are lost at the front if and only if some chunk handed the client bytes of that channel before its writer was attached; otherwise the SOCKS client was given a prefix of what the target sent |
| ProxyDrops.HandleAllDrops | src/wh/cli/proxy.py:153-166 | handling any frames drops exactly the bytes for a registered channel without a writer, up to its CLOSE |
| ProxyDrops.FirstWordsAreLost | src/wh/cli/proxy.py:329-334 | an input where bytes are lost: a target that speaks as soon as it is connected, any host, any words |
| ProxyRuns.DialledAsRequested | src/wh/cli/proxy.py:108-137 | in every run, the server dials on c only the address asked for on c |
| ProxyRuns.DialledWasOpened | src/wh/cli/proxy.py:187-202 | in every run, the address dialled on c is the one of the very connection that opened c |
| ProxyRuns.RunKeeps | src/wh/cli/proxy.py:73-214 | the channel invariant holds in every reachable state over any lawful codec: one dial per id, nothing before it succeeds, streams intact |
| ProxyRuns.LocalKeepsView | src/wh/cli/proxy.py:319-349 | every local step of either end keeps the invariant of every channel |
| ProxyRuns.ServerHandlesAll | src/wh/cli/proxy.py:97-106 | whatever a chunk completes, handling it at the server keeps the invariant |
| ProxyRuns.ClientHandlesAll | src/wh/cli/proxy.py:97-106 | whatever a chunk completes, handling it at the client keeps the invariant |
| ProxyRuns.ClientHandlesData | src/wh/cli/proxy.py:153-159 | DATA at the client goes to the writer, is lost if none is attached yet, and is ignored once the channel is gone |
| ProxyRuns.ConnectKeeps | src/wh/cli/proxy.py:187-202 | a new connection gets an id nothing was ever sent on |
| ProxyRuns.AttachKeeps | src/wh/cli/proxy.py:329-334 | attaching the writer loses nothing from then on; it fails if the channel is gone |
| ProxyRuns.DialKeeps | src/wh/cli/proxy.py:108-137 | a dial task uses up its one CONNECT, and only a success lets data flow |
| ProxyRuns.ClientReadKeeps | src/wh/cli/proxy.py:337-342 | forwarding a read puts its bytes behind everything the client sent before |
| ProxyRuns.ServerReadKeeps | src/wh/cli/proxy.py:169-176 | forwarding a read puts its bytes behind everything the target sent before |
| Socks.DialsWhatWasRequested | src/wh/cli/proxy.py:259-319 | for every address type: the address dialled is the one requested if and only if no read is cut short by what has arrived |
| Socks.RequestDialled | src/wh/cli/proxy.py:282-314 | the same for the request alone |
| Socks.DomainName | src/wh/cli/proxy.py:301-314 | the address is exact if and only if no read is short; a short read of the name makes a proper front part of it, a short read of the port closes the connection |
| Socks.NumericAddress | src/wh/cli/proxy.py:298-314 | the address is exact when no read is short, and a short read closes the connection |
| Socks.DottedReadsBack | src/wh/cli/proxy.py:298-300 | the text an IPv4 address is dialled by, split at its dots and read from left to right, gives the four bytes of the request in order |
| Socks.NumericNeverDialsAnother | src/wh/cli/proxy.py:298-314 | however the bytes arrive, what is dialled for an IPv4 or IPv6 request reads back as the requested address, with the requested port |
| Socks.BytesDialled | src/wh/cli/proxy.py:259-319 | from the literal bytes of greeting and request of every address type to the host and port dialled, and the reply 5, 0 |
| Socks.OtherVersionsAreClosed | src/wh/cli/proxy.py:259-268 | a greeting that is short or of another version closes the connection without a reply |
| Socks.ShortNameDialsAnotherHost | src/wh/cli/proxy.py:301-314 | false property: a name of which one byte has arrived is dialled as that byte, with the next two bytes as the port |
| Socks.RepliesAreExact | src/wh/cli/proxy.py:270-311 | what a client is told is exactly one of: no acceptable method, command not supported, address type not supported, go on; each if and only if its cause is there |
| Socks.DottedInjective | src/wh/cli/proxy.py:298-300 | different IPv4 addresses are dialled under different names |
| Socks.PeerDialsWhatWasRequested | src/wh/cli/proxy.py:283-319 | once everything has arrived, the CONNECT payload that goes out decodes to exactly the host and port of the SOCKS request |
| SocksRuns.PeerDialsTheSession | src/wh/cli/proxy.py:252-319 | end to end, in every run over the chunked links: the address dialled on a channel is the destination of the SOCKS session that opened it if and only if no read of that session was short |
| SocksRuns.PeerDialsTheNumbers | src/wh/cli/proxy.py:252-319 | in every run, the text dialled for an IPv4 destination reads back from left to right as the bytes of the request, for an IPv6 one it is the text of those bytes, and the port is the requested one |
| Socks.StreamReader.Next | src/wh/cli/proxy.py:260-313 | `read(n)` takes at least one byte unless at the end, at most n, and no more than has arrived |
| Socks.ReadsTheFront | src/wh/cli/proxy.py:260-313 | a read takes a front part of what is left: nothing only at the end, all that is asked for if it has arrived, one byte if nothing has |
| Socks.ServeClient | src/wh/cli/proxy.py:252-319 | the handler on the live reader: replies and outcome of every branch up to `connect` |
| Socks.ReadRequest | src/wh/cli/proxy.py:282-314 | the request on the live reader, unsupported commands and address types included |
| Socks.ReadDomain | src/wh/cli/proxy.py:301-303 | a domain name on the live reader |
| Socks.ReadPort | src/wh/cli/proxy.py:313-314 | the port on the live reader |
| CodePoints.Utf8ExactlyWhenText | src/wh/cli/proxy.py:119 | the bytes that decode as UTF-8 are exactly the encodings of sequences of characters without surrogates |
| Bytes.DecimalIsCanonical | src/wh/cli/proxy.py:300 | the decimal text of a number denotes it and has no superfluous zero |
| Bytes.FirstDigitWeighsMost | src/wh/cli/proxy.py:300 | decimal text is read with the most significant digit in front |
| Rsync.RsyncProtocol.HandleFrame | src/wh/cli/rsync.py:117-130 | one dispatch: new state for every message type, the raising cases included |
| Rsync.RsyncProtocol.HandleFile | src/wh/cli/rsync.py:144-180 | start truncates, opens and notes the announced size, data appends and counts, end closes and counts |
| Rsync.RsyncProtocol.OnData | src/wh/cli/rsync.py:101-130 | all whole frames are handled in order, the rest stays buffered |
| Rsync.RsyncProtocol.SendChunks | src/wh/cli/rsync.py:233-240 | the read loop sends exactly the chunks of the file and counts its size |
| Rsync.RsyncProtocol.SendFile | src/wh/cli/rsync.py:223-243 | a file goes out as start, its chunks and end, and counts once |
| Rsync.ChunksSpellContent | src/wh/cli/rsync.py:234-239 | the chunks concatenate to the file, none is empty, and all but the last are 32768 bytes long |
| Rsync.ReceiveFile | src/wh/cli/rsync.py:144-180 | a file sent is the file received: its content replaces the old one, the bytes received are the bytes announced, they are added to the byte count, and the file counts once |
| Rsync.BuildDict | src/wh/cli/rsync.py:265-266 | a later entry for a path replaces an earlier one but keeps its place |
| Rsync.CompareManifests | src/wh/cli/rsync.py:255-284 | the two result lists, in the order of iteration |
| Rsync.NewOrChanged | src/wh/cli/rsync.py:271-276 | the loop over the local files picks, in order, what is new or has another checksum |
| Rsync.Gone | src/wh/cli/rsync.py:279-282 | the loop over the remote files picks, in order, what is gone |
| Rsync.ComparisonIsExact | src/wh/cli/rsync.py:255-284 | a path is sent if and only if it is new or its checksum differs, deleted if and only if it is gone, and listed once |
| Rsync.LastEntryCounts | src/wh/cli/rsync.py:265-266 | of several entries for a path the last one counts |
| Rsync.PathsByFirstEntry | src/wh/cli/rsync.py:265-271 | a path keeps the place of its first entry in the order of iteration |
| Rsync.SelectInOrder | src/wh/cli/rsync.py:271-282 | what is picked from two lists in a row is picked from the first, then from the second |
| RsyncWire.TextOnTheWire | src/wh/cli/rsync.py:198-254 | the bytes of manifest, request, deletions and the end of a transfer |
| RsyncWire.StartOnTheWire | src/wh/cli/rsync.py:223-231 | the bytes that announce a file: length of the path, path, eight bytes of size |
| RsyncWire.ChunkOnTheWire | src/wh/cli/rsync.py:234-243 | the bytes of a chunk and of the end of a file |
| RsyncWire.RaisesExactlyWhen | src/wh/cli/rsync.py:132-193 | a message raises if and only if it resolves a manifest or a request a second time, its JSON cannot be read, or it announces a file badly |
| RsyncWire.UnexpectedIsIgnored | src/wh/cli/rsync.py:117-180 | a manifest or request nobody waits for, data and ends without a file, and unknown types change nothing |
| RsyncWire.DeletedFileStaysDeleted | src/wh/cli/rsync.py:164-193 | data for a file that was deleted while open is counted, and the file does not come back |
| RsyncRuns.DoneMeansSynced | src/wh/cli/rsync.py:414-435 | in every run, at DONE: exactly the stale files were written and the extra ones removed, the file and byte counters of both ends equal the number and total size of the files requested, and the last file has its announced size |
| RsyncRuns.ConvergesExactlyWhen | src/wh/cli/rsync.py:144-154 | false property, with its exact condition: in every run, at DONE the destination tree is the goal if and only if the destination is the working directory or there was nothing to do |
| RsyncRuns.AfterConvergesExactlyWhen | src/wh/cli/rsync.py:144-154 | the same for the tree that a complete sync is bound to leave |
| RsyncRuns.ConvergesInPlace | src/wh/cli/rsync.py:512-555 | in the working directory the tree of a complete sync is the source with `--delete`, the old tree overridden by the source without it |
| RsyncRuns.NeverConvergesElsewhere | src/wh/cli/rsync.py:150-154 | below any other directory the tree of a sync that had anything to do never is the goal |
| RsyncRuns.SecondRunRequestsNothing | src/wh/cli/rsync.py:414-435 | in every run on the tree a converged run has left, nothing is requested, and at DONE no file was transferred and the tree is unchanged |
| RsyncRuns.ConvergedScansAgree | src/wh/cli/rsync.py:255-284 | on scans of a converged tree the comparison finds nothing to send and nothing to delete |
| RsyncRuns.RunKeeps | src/wh/cli/rsync.py:414-435 | the run invariant holds in every reachable state, broken-down runs included |
| RsyncRuns.ReceiveTransfer | src/wh/cli/rsync.py:144-193 | handling a whole transfer leaves the synchronised tree and the counters of the sender |
| RsyncRuns.ComparisonOfScans | src/wh/cli/rsync.py:255-284 | on exact scans the comparison finds exactly the stale and the extra files of the two trees |
| RsyncRuns.TransferEndsWithDone | src/wh/cli/rsync.py:534-549 | DONE is the last frame of a complete transfer, and no broken one holds it |
| RsyncProgress.EveryRunEnds | src/wh/cli/rsync.py:512-549 | every run goes on to a state where nothing can happen any more |
| RsyncProgress.StepProgresses | src/wh/cli/rsync.py:512-549 | every step with an effect uses up a stage of the run or bytes in flight |
| RsyncProgress.StuckMeansDone | src/wh/cli/rsync.py:414-435 | a run that can go no further is done if and only if no end gave up and the manifest of the receiver was not missed |
| RsyncProgress.CompletesUnlessEarly | src/wh/cli/rsync.py:132-136 | when everything fits its field, a run that can go no further has synchronised if and only if no step handed the manifest of the receiver to a sender that was not waiting yet |
| RsyncProgress.UnheardMeansEarly | src/wh/cli/rsync.py:204-209 | a manifest is missed, and for good, exactly by coming before `receive_manifest` |
| RsyncProgress.NeverGivesUp | src/wh/cli/rsync.py:94-99 | no end of a run gives up while every message fits its field |
| RsyncProgress.EarlyIsNeverDone | src/wh/cli/rsync.py:132-136 | once the manifest came too early, no continuation of the run is ever done |
| RsyncProgress.EarlyRun | src/wh/cli/rsync.py:414-423 | between any two trees there is such a run, of two steps |
| RsyncProgress.ScanningFirstCompletes | src/wh/cli/rsync.py:512-549 | when everything fits, a run that begins with the scan of the sender is done wherever it can go no further |
| RsyncProgress.DoneRunExists | src/wh/cli/rsync.py:512-549 | when everything fits, there is a run that is done, with the trees synchronised |
| RsyncExample.SyncBelowADirectoryFails | src/wh/cli/rsync.py:144-154 | an input where convergence fails, with nothing assumed: one file, a destination one directory down, a run that is done and has not reached its goal |
| RsyncExample.SyncCanStall | src/wh/cli/rsync.py:132-136 | an input where completion fails, with nothing assumed: two steps after which no continuation is ever done |
| Hex.FromToHex | packages/mailbox/src/index.js:466-478 | hex text decodes to the bytes it was made of |
| Hex.HexToBytes | packages/mailbox/src/index.js:472-478 | the loop that fills the array computes the decoding, an odd last digit ignored |
| Hex.HexOrderIsByteOrder | packages/spake2/src/index.js:281-289 | comparing hex strings of equally long byte strings is comparing the bytes |
| Hex.DigitsInOrder | packages/mailbox/src/index.js:466-484 | the digits are 0 to 9 and a to f in order, and upper case is read alike |
| Hex.FirstDifferenceDecides | packages/spake2/src/index.js:281-289 | the first difference decides the order of two strings |
| Hex.PrefixComesFirst | packages/spake2/src/index.js:281-289 | without a difference the shorter string comes first |
| Mailbox.MailboxClient.DispatchMessage | packages/mailbox/src/index.js:392-401 | the loop over the live array calls and keeps what the specification says, although handlers splice it meanwhile |
| Mailbox.MailboxClient.Call | packages/mailbox/src/index.js:298-304 | one handler call, with the removal of a served waiter from the array being walked |
| Mailbox.MailboxClient.Off | packages/mailbox/src/index.js:434-442 | removes the first entry that is the handler, or nothing |
| Mailbox.MailboxClient.WaitForPhase | packages/mailbox/src/index.js:291-306 | registers a waiter of its own at the end |
| Mailbox.MailboxClient.OnMessage | packages/mailbox/src/index.js:238-272 | registers a handler of its own at the end |
| Mailbox.LoneWaiterIsReached | packages/mailbox/src/index.js:392-401 | when one waiter wants the phase it is called once and removed, all others stay, and all others but the one behind it are called |
| Mailbox.AllServedUnlessAdjacent | packages/mailbox/src/index.js:392-401 | exact condition: every waiter for a phase is served if and only if no two of them are neighbours |
| Mailbox.EveryoneIsCalledUnless | packages/mailbox/src/index.js:392-401 | exact condition: every handler sees the message if and only if no waiter for its phase stands before the last place |
| Mailbox.WalkPlaceByPlace | packages/mailbox/src/index.js:392-401 | for every array with any number of waiters: called are, in order, the handlers that do not stand behind a served one, and kept, in order, those passed over or not waiting for the phase |
| Mailbox.ListenerIsPassedOver | packages/mailbox/src/index.js:392-401 | an input where it fails: a listener registered right behind a waiter |
| Mailbox.SecondWaiterIsPassedOver | packages/mailbox/src/index.js:392-401 | an input where a waiter is not served: two waiters for one phase |
| Phases.DecryptOfEncrypt | packages/protocol/src/nacl.js:77-102 | the nonce in front of the ciphertext is found again, and the message with it |
| Phases.Wormhole.Send | packages/protocol/src/index.js:347-366 | uses up one number, and hands the mailbox the body for it |
| Phases.Wormhole.StartReceive | packages/protocol/src/index.js:374-380 | uses up one number, and waits for it by name |
| Phases.KthReceiveGetsKthMessage | packages/protocol/src/index.js:347-395 | under delay, reordering, duplication, echo and timeouts: a completed k-th receive was served by the k-th message of the peer and yields its payload unless the ciphertext is valid UTF-8 |
| Phases.ReceivesThePayloadExactlyWhen | packages/mailbox/src/index.js:251-259 | exact condition: in every run a completed k-th receive yields the k-th payload if and only if the ciphertext is not valid UTF-8 |
| Phases.TextBodyIsLost | packages/mailbox/src/index.js:251-259 | for every such message there is a run in which its receive completes without its payload |
| Phases.EmptyMessageIsLost | packages/mailbox/src/index.js:251-259 | an input where it fails, with nothing assumed: a lawful box, the empty message and a nonce of zeros |
| Phases.DeliveryServesItsWaiter | packages/mailbox/src/index.js:291-306 | a receive still waiting when its message is handed over completes, and every other handler stays registered |
| Phases.RunKeeps | packages/protocol/src/index.js:347-395 | the invariant of both parties and the relay holds in every reachable state |
| Phases.UnwrapOfMessage | packages/mailbox/src/index.js:249-261 | what hex, the text guess and decryption make of a genuine body |
| PhaseResults.ReceiveEndsOnce | packages/protocol/src/index.js:374-395 | in every run, every receive that was started is waiting or has ended, never both and never neither |
| PhaseResults.ResultsAreFinal | packages/mailbox/src/index.js:291-306 | in every run, whatever follows, a receive that has ended keeps its result |
| PhaseResults.TimedOutExactlyWhen | packages/mailbox/src/index.js:291-297 | in every run, a receive has timed out if and only if its timeout came while it was waiting |
| PhaseResults.ListenersStay | packages/mailbox/src/index.js:238-272 | in every run, a handler registered for all messages stays, whatever else is served or times out |
| PhaseResults.RelayGrows | packages/protocol/src/index.js:355-366 | what a step hands the relay: a send its phase, its side and the hex text of nonce and ciphertext |
| RequestQueue.RequestQueues.Fetch | browser-extension/src/background.js:450-476 | the new call waits for the last earlier call to its address, or for nobody if there is none; it becomes the last itself, and every other queue is untouched |
| RequestQueue.RequestQueues.GetRequestQueue | browser-extension/src/background.js:315-320 | the tail of an address is its last call so far |
| RequestQueue.WaitsForTheLastCall | browser-extension/src/background.js:450-476 | in every run a request waits for the last earlier call to its address and for no other |
| RequestQueue.OneAtATimeInOrder | browser-extension/src/background.js:450-476 | in every run requests to one address begin in call order and never overlap |
| RequestQueue.FailureNeverBlocks | browser-extension/src/background.js:472-475 | however earlier requests ended, the next one may begin |
| RequestQueue.AwaitsItsOwnPhaseUnlessASendWasRejected | browser-extension/src/background.js:454-458 | exact condition: a request awaits the phase it sent on if and only if no earlier send to its address was rejected; timeouts do no harm |
| RequestQueue.OneRejectedSendShifts | browser-extension/src/background.js:454-458 | an input where it fails: after one rejected send the next request sends on phase 1 and awaits phase 0 |
| RequestQueue.RunKeeps | packages/protocol/src/index.js:355-377 | the phase counters count calls and calls less rejected sends in every reachable state |
| RequestQueue.EveryCallIsServed | browser-extension/src/background.js:450-476 | every run goes on to a state in which every call has been served, however earlier ones ended |
| RequestQueue.EndsExactlyAs | browser-extension/src/background.js:454-475 | in every run, a request has ended with a status if and only if a step ended it so: its send was rejected, or its receive settled, well or badly as that step says |
| Dilation.RecordRoundTrip | packages/dilation/src/index.js:601-691 | a record survives the wire if and only if its id is below 2^32 and an ACK carries its number |
| Dilation.RecordLayout | packages/dilation/src/index.js:681-686 | the bytes of a record: type, id modulo 2^32, most significant byte first, then the data |
| Dilation.Subchannel.Receive | packages/dilation/src/index.js:840-848 | counts the record; with a handler it is handed on and the buffer stays, without one it becomes the last in the buffer and nothing is handed on |
| Dilation.Subchannel.Read | packages/dilation/src/index.js:890-892 | takes the oldest buffered record, and keeps the books |
| Dilation.DilationManager.Open | packages/dilation/src/index.js:698-713 | takes a fresh id, registers the subchannel and announces it |
| Dilation.DilationManager.Send | packages/dilation/src/index.js:823-834 | sends DATA on an open subchannel; on a closed one nothing is sent and the call fails |
| Dilation.DilationManager.Close | packages/dilation/src/index.js:872-881 | closes an open subchannel and sends CLOSE, once |
| Dilation.DilationManager.FinishClose | packages/dilation/src/index.js:881-884 | after the await the closed subchannel leaves the map of the manager |
| Dilation.DilationManager.OnMessage | packages/dilation/src/index.js:556-644 | one control message: open with or without listener, data, close, ack, unknown subchannel, unparsable |
| DilationRuns.SubchannelsKeepTheirStreams | packages/dilation/src/index.js:556-713 | in every run, whichever ends open, for every id that at most one end has issued: the DATA handed to the subchannel at either end is an in-order prefix of what the other end sent on it, with the rest in flight while it is registered |
| DilationRuns.CountersAddUp | packages/dilation/src/index.js:800-900 | in every run, whichever ends open, `recvSeqnum` equals records given to the handler plus read plus buffered, and none is lost or repeated |
| DilationHandlers.HandlerSeesEverything | packages/dilation/src/index.js:840-848 | in every run, a handler set before the first record and never cleared has been given everything that came in, with nothing buffered, and that is an in-order prefix of what the other end sent |
| DilationHandlers.BufferKeepsEverything | packages/dilation/src/index.js:840-892 | in every run, without a handler everything that came in is what was read followed by what is buffered |
| DilationHandlers.RecordGoesTo | packages/dilation/src/index.js:574-579 | in any state of an end, a record for a registered subchannel goes to its handler if one is set, else to the end of its buffer |
| DilationHandlers.OtherRecordsAreIgnored | packages/dilation/src/index.js:570-590 | ACKs, unknown types and whatever comes for a subchannel that is not there change nothing |
| DilationSession.SessionRun | packages/dilation/src/index.js:556-892 | for every protocol and whatever both ends say in whatever order there is a run in which a subchannel is opened, the handler of each end is given exactly what the other sent, and after either end has closed it, it is closed and gone at both |
| DilationSession.RefusalRun | packages/dilation/src/index.js:620-634 | for every protocol nobody listens to, or no longer, there is a run in which the subchannel of the opener is closed and gone |
| DilationCollisions.IdsCollideWhenBothOpen | packages/dilation/src/index.js:149 | false property: for every id there is a run in which both ends issued it and a record is handed to a subchannel its sender never saw |
| DilationCollisions.StreamsAreSafeExactlyUnlessShared | packages/dilation/src/index.js:149 | exact condition: the streams of an id hold in all runs if and only if not both ends have issued it |
| DilationRuns.RunKeeps | packages/dilation/src/index.js:556-900 | the invariant of every subchannel with one opener holds in every reachable state below 2^32 ids |
| DilationRuns.DeliverOpenOwn | packages/dilation/src/index.js:620-644 | an OPEN registers a fresh subchannel or is answered with CLOSE, and never reaches the end that sent it |
| Listener.NthAcceptGetsNthArrival | packages/dilation/src/index.js:945-980 | for every interleaving the n-th accept gets the n-th arrival, none is lost or handed out twice, and one queue is empty |
| Listener.SubchannelListener.OnSubchannel | packages/dilation/src/index.js:957-966 | resolves the oldest waiting call, or queues the arrival |
| Listener.SubchannelListener.AcceptOne | packages/dilation/src/index.js:972-980 | takes the oldest pending arrival, or queues the call |
| Correlation.MountClient.SendRequest | src/wh/cli/mount.py:318-329 | takes a fresh id and registers it; an id too wide to pack leaves its entry behind |
| Correlation.MountClient.HandleResponse | src/wh/cli/mount.py:297-309 | the awaited call with that id ends as replied, with kind and payload of the reply, and its entry is removed; any other reply changes no outcome |
| Correlation.MountClient.OnConnectionLost | src/wh/cli/mount.py:311-316 | fails exactly the calls still awaited |
| Correlation.MailboxRequests.Request | packages/mailbox/src/index.js:358-371 | takes a fresh id and registers it; a throwing send leaves its entry behind |
| Correlation.MailboxRequests.HandleReply | packages/mailbox/src/index.js:377-390 | the awaited call with that id ends as replied, with kind and payload of the reply, and its entry is removed; anything else is left to the handlers |
| Correlation.MailboxRequests.Expire | packages/mailbox/src/index.js:363-366 | the timer fails an awaited call and removes its entry, that of a throwing send included |
| Correlation.MailboxRequests.Cleanup | packages/mailbox/src/index.js:447-455 | forgets every pending call |
| Correlation.SettlesAtMostOnce | src/wh/cli/mount.py:297-332 | late, duplicated or unsolicited replies never change how a call ended |
| Correlation.IdsCountCalls | src/wh/cli/mount.py:320-321 | the n-th call has id n, so ids are never reused |
| Correlation.EndsExactlyAs | src/wh/cli/mount.py:297-332 | for every list of events, id and outcome: the call ends so if and only if the first event to reach it while it was out ends it so (a reply as replied with its own kind and payload, a timer as timed out, a lost connection as lost), or sending it failed |
| Correlation.OutMeansAwaited | packages/mailbox/src/index.js:358-390 | the calls still out are those made and sent that no event has reached |
| Correlation.NextEventSettles | packages/mailbox/src/index.js:363-390 | the next reply, timer or loss to reach a call that is out settles it, each in its own way |
| Correlation.LeftoverEntries | packages/mailbox/src/index.js:358-371 | the entry of a call whose sending failed is left alone by a time-out of mount and removed by the timer of the mailbox |
| Correlation.RepliedByItsOwn | packages/mailbox/src/index.js:377-390 | a call settled by a reply was settled by one bearing its own id, received after the call was made |
| Correlation.LosingSettlesEveryone | src/wh/cli/mount.py:311-316 | a lost mount connection leaves no call unsettled |
| Correlation.CleanupStrands | packages/mailbox/src/index.js:447-455 | the mailbox clean-up strands exactly the calls still out: they never settle afterwards |
| Nonce.NonceCounter.Increment | packages/protocol/src/nacl.js:63-68 | the carry loop turns the array into its successor in place |
| Nonce.NonceCounter.Next | packages/protocol/src/nacl.js:54-58 | returns a fresh copy of the counter and moves on |
| Nonce.NonceCounter.Take | packages/protocol/src/nacl.js:54-58 | each of n nonces still holds its own counting value after all later calls, and up to 256^24 of them are pairwise different |
| Nonce.SuccessorAddsOne | packages/protocol/src/nacl.js:63-68 | the successor adds exactly one to the little-endian value, modulo 256 to the length |
| Nonce.AfterCounts | packages/protocol/src/nacl.js:63-68 | n calls add n, modulo 256 to the length |
| Nonce.NoncesAreDistinct | packages/protocol/src/nacl.js:54-68 | any two of 256^24 consecutive nonces differ |
| Bytes.ValueOfBytesLE | packages/spake2/src/index.js:20-49 | `numberToBytesLE` then `bytesToNumberLE` is the identity below 256^n |
| Bytes.BytesOfValueLE | packages/spake2/src/index.js:20-49 | `bytesToNumberLE` then `numberToBytesLE` is the identity |
| Bytes.BigEndianIsReversedLittleEndian | packages/spake2/src/index.js:20-37 | the big-endian value is the little-endian value of the reversed bytes |
| Bytes.DecimalInjective | packages/protocol/src/index.js:356 | different phase numbers have different names |
| Spake2.BytesToNumberLE | packages/spake2/src/index.js:20-26 | the loop from the last byte computes the little-endian value |
| Spake2.BytesToNumberBE | packages/spake2/src/index.js:31-37 | the loop from the first byte computes the big-endian value |
| Spake2.NumberToBytesLE | packages/spake2/src/index.js:42-49 | the loop fills the array with the low bytes of the number |
| Spake2.ReducedFits | packages/spake2/src/index.js:134-145 | a number reduced modulo L, or modulo the field prime, survives in 32 bytes |
| Spake2.MaskChangesNothing | packages/spake2/src/index.js:88-92 | the mask on the last byte changes no candidate |
| Spake2.CandidatesDiffer | packages/spake2/src/index.js:88-92 | the 1000 candidates are pairwise different |
| Spake2.CandidateCounts | packages/spake2/src/index.js:83-92 | the k-th candidate is the 32-byte little-endian form of y + k modulo 2^255 - 19 |
| Spake2.ConstantsOfEd25519 | packages/spake2/src/index.js:56-75 | the two constants are 2^252 + 27742317777372353535851937790883648493 and 2^255 - 19 |
| Spake2.PasswordToScalar | packages/spake2/src/index.js:134-145 | 32 bytes whose little-endian value is the big-endian value of the HKDF output, modulo L |
| Spake2.PasswordScalarIsReduced | packages/spake2/src/index.js:134-145 | the scalar that start and finish use is the big-endian value of the HKDF output, modulo L |
| Spake2.MulOnce | packages/spake2/src/index.js:195-196 | multiplying by 0, 1 and 2 gives the zero, the point and its double |
| Spake2.FirstPoint | packages/spake2/src/index.js:83-106 | the search returns the point of the first candidate that decodes and survives the cofactor multiplication, or none if none of the 1000 does |
| Spake2.Unblind | packages/spake2/src/index.js:242-244 | unblinding takes away exactly the blinding |
| Spake2.SharedElement | packages/spake2/src/index.js:242-248 | each side computes x times y times the base point |
| Spake2.TranscriptIsSymmetric | packages/spake2/src/index.js:272-313 | both ends build the same transcript, the two messages in byte order |
| Spake2.TranscriptFits | packages/spake2/src/index.js:295-311 | with 32-byte digests the transcript is the 160 bytes of its buffer |
| Spake2.KeyFromPeer | packages/spake2/src/index.js:216-258 | what one end derives from the message of a peer with scalar y |
| Spake2.KeysAgree | packages/spake2/src/index.js:175-314 | both ends derive the same key for all scalars and any blinding point |
| Spake2.FailsExactlyWhen | packages/spake2/src/index.js:223-233 | `finish` fails exactly on a message without the side byte or whose rest is no point |
| Spake2.SPAKE2Symmetric.Start | packages/spake2/src/index.js:175-209 | a nonzero scalar x below L, the message 0x53 and the point x times the base plus the password scalar times M, and an error on a second start |
| Spake2.SPAKE2Symmetric.Finish | packages/spake2/src/index.js:216-258 | the key, or an error for a wrong state, side byte or point |
| Spake2.Exchange | packages/spake2/src/index.js:153-315 | two objects with one password and identity that swap messages end with one key, the one made of the two points in byte order and of x times y times the base |
| Spake2.ResiduesFormAGroup | packages/spake2/src/index.js:56-60 | the integers modulo L satisfy the group and encoding laws assumed above |
| Spake2.MulOfResidues | packages/spake2/src/index.js:56-60 | in that group multiplying by a scalar is multiplication modulo L |

## Left out

Parameters instead of models:

- SHA-256, HKDF, XSalsa20-Poly1305 and curve arithmetic are function parameters, the cipher with `open(seal(m)) = m` and boxes 16 bytes longer than their messages, the curve as any group whose points have one 32-byte form.
- JSON text of manifests and path lists is a pair of functions that are inverse to each other; malformed JSON is their None.
- IPv6 text (`inet_ntop`) is a function of the sixteen bytes.
- What `hexToBytes` makes of a body that was taken for text is a function of those bytes, of which only the length is used: at most one byte for two characters.
- The outcome of a dial, the arrival of bytes and the moment of every timeout are chosen by the steps of a run.

Weaker than the code, or narrower:

- Socks.DialsWhatWasRequested: requires the list of authentication methods to arrive in time, because a short read of it turns its tail into the request.
- SocksRuns.PeerDialsTheSession: the same, sessions whose method list is cut short are not covered.
- Proxy.ProxyProtocol.SendMessage: the object is attached to its transport before it is used, so the early return of an unattached one is not modelled.
- Phases.Wormhole.Send: the branch over a connected transit is not part of this model.
- Dilation.DilationManager.Open: runs while the control channel is open; the throw in another state is not modelled.
- RsyncRuns.ConvergesExactlyWhen: destinations are below the working directory; an absolute path or one that leads out of it has no prefix and is not covered.
- RsyncRuns.NeverConvergesElsewhere: the same, destinations outside the working directory are not covered.
- RequestQueue.AwaitsItsOwnPhaseUnlessASendWasRejected: an address keeps one wormhole for the whole run, while `ensureConnection` in `browser-extension/src/background.js` may replace it and so restart its phase counters.
- RequestQueue.RunKeeps: the same, one wormhole per address for the whole run.
- Phases.KthReceiveGetsKthMessage: the order in which concurrent sends reach the relay is not modelled; the relay may reorder anyway.
- DilationRuns.SubchannelsKeepTheirStreams: assumes fewer than 2^32 subchannels, since ids wrap there, and that decryption keeps the order of the messages of the data channel.
- Rsync.RsyncProtocol.HandleFrame: an exception raised by a malformed message ends all further handling; how the transport reports it is not modelled, nor is the `_done` that a lost connection sets.
- RsyncRuns.DoneMeansSynced: files do not change during the transfer, writes reach the file at once, and a path is never both a file and a directory.
- Spake2.KeysAgree: a password scalar of zero, which the curve library refuses to multiply by, is treated like any other.
- Correlation.MailboxRequests.HandleReply: ids are the numbers whose decimal text the client sends; the decimal text of different numbers differs (`Bytes.DecimalInjective`).
- Dilation.DilationManager.OnMessage: protocol names are compared as bytes, while the source compares what a forgiving TextDecoder makes of them, so a malformed name, or one with a byte order mark, may match there and not here; and subchannels are values in the map of the manager, so that the map and the application hold the same object is not captured; `Dilation.Subchannel` is the object on its own.
- RequestQueue.RequestQueues.Fetch: a promise is the number of the request that settles it, so that the chain of promises is a value.

Not modelled:

- Rsync: dry runs, a single file as source, permissions, modification times, progress output.
- Proxy: `drain` and flow control towards the sockets; the bytes given to a writer count as written.
- Tunnel: runs of `open_channel` beyond the misread first message, and the forwarding that would follow.
- Mount: the server side, whose protocol field is never set, and the operations behind a request.
- Mailbox: `once`, the nameplate and welcome messages, and the WebSocket itself.
- Dilation: WebRTC set-up, hints, the reconnect stubs and flow control by ACK.
- SPAKE2: the compatibility wrappers.
- The telnet, vnc, rdp, dns, ftp, nmap and traceroute commands use the same header format with simpler state, and would add nothing to the framing theorems.
- The daemon, the Caddy integration, transit, audit logging, settings and all user interfaces.
