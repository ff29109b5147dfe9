# HarmonyNetBridge: a verified model

HarmonyNetBridge carries a HarmonyOS device's VPN traffic over hdc to a Mac. A Go daemon on the Mac
accepts a *control* and a *data* connection from the device, speaks the framed protocol HNB/1 on both,
relays IP packets, answers DNS from the Mac's resolvers and can route TCP through an HTTP proxy whose
CONNECT target it sniffs from the first bytes. On the device an ArkTS control session and a native packet
pump are the other end.

This project models the parts of that system where several goroutines, threads or byte streams meet, and
proves what holds over every input and every interleaving.

| file | models |
|---|---|
| `Bytes.dfy`, `Wrappers.dfy` | machine integers, big-endian encodings, a writer that takes any part of what it is offered |
| `Frames.dfy` | the HNB/1 codec of the daemon (`internal/protocol/protocol.go`) |
| `Decoder.dfy` | the incremental decoder and the encoder of the device (`HnbProtocol.ets`) |
| `Utf8.dfy` | the UTF-8 codec of the device (`HnbProtocol.ets`) |
| `Channel.dfy` | sequence numbers, several writers on one locked channel, the receivers of both ends |
| `ControlSession.dfy` | the send queue of the device's control session (`VpnControlSession.ets`) |
| `SessionSlots.dfy`, `Supervisor.dfy`, `SupervisorTheorems.dfy`, `SupervisorProgress.dfy` | the session slots of `internal/daemon/server.go` and every interleaving of its goroutines |
| `Heartbeat.dfy` | the daemon's heartbeats and the device's watchdog |
| `Sniffer.dfy` | the TLS ClientHello sniffer of `internal/proxy/connect.go` |
| `Tunnel.dfy` | `hostnameSniffingConn` of `internal/proxy/connect.go` and every interleaving of Write and Close |
| `DnsName.dfy`, `Resolvers.dfy`, `DnsRound.dfy`, `DnsExchange.dfy`, `DnsCalls.dfy` | `internal/relay/dns.go`, one query at a time and overlapping |
| `Pump.dfy` | the native packet pump (`packet_pump.cpp`) and every interleaving of its threads |

`dafny verify dfyconfig.toml` checks everything.

## How the model is built

Code that runs under a mutex is a method of a class with the source's fields. Its contract equates the new
state with a function of the old one. A step system whose steps are those functions then interleaves all
goroutines or threads at every point where another one can look: `Init`, `Enabled`, `Step`, and `IsRun` for
a run from an initial state. The theorems are about every state of every run.

Beside the laws that relate two parts of the code, such as round trips, each format and each decision has a
lemma that states it in literal bytes, weights and fields: `Frames.WireLayout`, `Frames.HeaderErrors`,
`DnsName.Spelled`, `Utf8.ScalarLayout`, `Sniffer.UsableIff`, `Pump.PacketRules`, `SupervisorProgress`.

The outside world is a parameter. A writer (`Sink`) follows an arbitrary script of partial writes and
errors; the DNS network, clock, resolver source and cancellation are arbitrary functions of the call
number; HTTP sniffing is an arbitrary function; relays, connections and file descriptors are identities.
Fields marked *history* exist only to state properties.

## What the code does where it differs from its documentation

- `WriteFrame` checks the length of a payload after reducing it modulo 2^32, so a frame of 2^32 bytes is
  accepted and cannot be read back. `Frames.ReadFrameOfEncode` gives the exact condition.
- `ReadFrame` reports a plain end of input, not an unexpected one, when a stream ends right after a complete
  header. `Decoder.GoReadsTheSame` says so.
- A `push` that throws loses the frames decoded before the bad header in that call, keeps the bytes, and
  throws again on every later call. `Decoder.NothingIsLostIff` says exactly when a stream loses frames,
  `Decoder.SomeFrameIsLost` shows one that does, and see `Decoder.ThrowingIsPermanent`.
- A write that does not fit the 64 KiB sniffing buffer skips sniffing, so beyond 64 KiB the cut of a stream
  into writes can change the CONNECT target. `Tunnel.CutFreeIff` says exactly when it does not, and
  `Tunnel.ClientHelloDependsOnCut` gives a ClientHello for which it does.
- The documentation promises that a connection is closed after 15 seconds without the PONG. The code notices
  at the first tick after that (`Heartbeat.TimesOutIffUnanswered`).
- The control session takes a sequence number even for a frame its encoder then refuses.

## Assumptions

- `SupervisorTheorems.PublishOrder` assumes that session tokens never repeat and that a peer presents only
  tokens it has been sent (`Supervisor.Honest`). With the first alone,
  `SupervisorTheorems.OrderedIffNoEarlyBind` says exactly when the order holds, and
  `SupervisorTheorems.GuessedTokenBreaksOrder` gives a run in which it does not. All other theorems about the
  supervisor hold without either.
- The heartbeat bounds take the largest distance between two ticks as a parameter.

## Model

| member | source | states |
|---|---|---|
| SupervisorTheorems.PublishOrder | internal/daemon/server.go:807-966 | in every interleaving a session's CONTROL_CONNECTED publish precedes all its DATA_CONNECTED publishes, those precede its release publish, and a session opens and closes at most once |
| SupervisorTheorems.OrderedIffNoEarlyBind | internal/daemon/server.go:807-966 | with fresh tokens the publishes are in order if and only if no bind succeeded between the accept of its session and that accept's publish |
| SupervisorTheorems.GuessedTokenBreaksOrder | internal/daemon/server.go:807-868 | a token presented between the accept and its publish is bound, so a DATA_CONNECTED can be published first |
| SupervisorTheorems.SlotsAgree | internal/daemon/server.go:926-966 | in every reachable state a bound data connection stands beside a live VPN session whose token it presented, the installed relay is that of the goroutine in the data slot, and a live VPN session has no reconnect pending |
| SupervisorTheorems.StoppedForGood | internal/daemon/server.go:1277-1299 | once shutdown has taken the mutex every slot is empty for ever |
| SupervisorTheorems.BindReachesReservedSession | internal/daemon/server.go:926-966 | a bind that succeeds finds exactly the control session from which its slot was reserved |
| SupervisorTheorems.RefusedBindHoldsNoSlot | internal/daemon/server.go:944-966 | a bind that is refused is not in the data slot, so returning without a release leaks nothing |
| SupervisorTheorems.RelayClosedOnce | internal/daemon/server.go:938-967 | every relay created has one holder at a time, is closed at most once, is closed exactly when nobody holds it, and has been closed once every goroutine has finished |
| SupervisorTheorems.MarksAreRequests | internal/daemon/server.go:1181-1189 | the ledger's count of requests is the number of releases in the run that asked for a reconnect |
| SupervisorTheorems.ReconnectLedger | internal/daemon/server.go:817-851 | those releases number the increase of Reconnects, plus one if a reconnect is pending, plus one if an accept has consumed it unpublished |
| SupervisorTheorems.Invariance | internal/daemon/server.go:781-1340 | the slot, relay and ledger invariants hold in every state of every run |
| SupervisorProgress.AcceptsIff | internal/daemon/server.go:807-824 | in every run a HELLO is accepted if and only if the control slot is free and the daemon is not stopping |
| SupervisorProgress.ReconnectCompletes | internal/daemon/server.go:807-868 | whenever a reconnect is pending and the slot is free, a new VPN connection is accepted, counted once in Reconnects, and clears the flag |
| SupervisorProgress.DataSessionCompletes | internal/daemon/server.go:926-966 | whoever presents the token of a live VPN session without a data connection gets its relay bound and published |
| SupervisorProgress.ReleaseEmpties | internal/daemon/server.go:1165-1189 | a release by the holder empties the slots, by anyone else it changes nothing, and the reconnect flag is set exactly for a running daemon's VPN that was not stopped |
| SupervisorProgress.ReportsIff | internal/daemon/server.go:1116-1150 | a status report is taken if and only if it is the control holder's, of a VPN session, known, and not ACTIVE without a data connection |
| SupervisorProgress.PublishesAre | internal/daemon/server.go:1150-1255 | what each publish of a session leaves in the snapshot |
| SupervisorProgress.MappingPublishes | internal/daemon/server.go:465-517 | the mapping monitor starts only without a session and publishes what it read, with an active VPN turned to reconnecting |
| SessionSlots.Server.AcceptControl | internal/daemon/server.go:807-824 | by the fields: accepted exactly if the control connection is none and the daemon is not stopping; the pending reconnect is consumed by a VPN session only |
| SessionSlots.Server.ReserveData | internal/daemon/server.go:927-936 | the data slot is reserved exactly for the token of a live VPN session with no data connection |
| SessionSlots.Server.BindRelay | internal/daemon/server.go:944-966 | the relay is installed exactly if the reservation still stands |
| SessionSlots.Server.ReleaseControl | internal/daemon/server.go:1165-1189 | only the holder clears the slots; it gets the data connection and relay to close, and marks a reconnect unless stopping or stopped |
| SessionSlots.Server.ReleaseData | internal/daemon/server.go:1220-1232 | only the holder clears the data slot and gets the relay; the loss is announced only beside a live VPN session |
| SessionSlots.Server.StopAll | internal/daemon/server.go:1277-1299 | shutdown empties the slots and takes what they held |
| Frames.ReadFrameOfEncode | internal/protocol/protocol.go:158-211 | a frame that WriteFrame accepts is read back, whatever follows, if and only if its payload is shorter than 2^32 bytes |
| Frames.OversizeFrameIsLost | internal/protocol/protocol.go:209-211 | a payload of 2^32 bytes passes the checks and is not read back |
| Frames.EncodeOfReadFrame | internal/protocol/protocol.go:178-207 | accepted bytes are exactly the encoding of the frame returned followed by the rest, and the frame obeys HNB/1 |
| Frames.WireLayout | internal/protocol/protocol.go:162-172 | every byte of an encoded frame: magic, version, type, and the flags, length and sequence with the weights of their bytes |
| Frames.HeaderErrors | internal/protocol/protocol.go:184-235 | for every header, in bytes: whether it passes and which error is reported first |
| Frames.PingOnTheWire | internal/protocol/protocol.go:158-207 | sixteen literal bytes and eight more are read as the PING with number 2, and are its encoding |
| Frames.ReadFrameFrom | internal/protocol/protocol.go:179-207 | reading from a stream gives the frame at its front or the exact error, and leaves the rest |
| Frames.WriteAll | internal/protocol/protocol.go:247-259 | success means that everything was written in order; an error comes exactly from a call that failed or took nothing, and leaves a prefix written |
| Frames.WriteFrame | internal/protocol/protocol.go:158-176 | an invalid frame reaches the wire not at all; otherwise the wire gets the encoding, or a prefix and an error |
| Decoder.EveryChunkingYieldsTheFrames | harmony/HarmonyNetBridge/entry/src/main/ets/bridge/HnbProtocol.ets:214-245 | for all valid frames and every way to cut their encodings, the decoder emits exactly those frames, throws nothing and retains nothing |
| Decoder.PushAllIsDecode | harmony/HarmonyNetBridge/entry/src/main/ets/bridge/HnbProtocol.ets:217-245 | on any stream and any cut, emitted frames and retained bytes make up the stream, the frames emitted are the first of the stream, and all of them while no header is bad; it throws exactly if the stream has a bad header |
| Decoder.ReturnedBeforeBad | harmony/HarmonyNetBridge/entry/src/main/ets/bridge/HnbProtocol.ets:217-245 | what was emitted is exactly the frames complete before the chunk that brings the first bad header |
| Decoder.NothingIsLostIff | harmony/HarmonyNetBridge/entry/src/main/ets/bridge/HnbProtocol.ets:217-245 | every frame of such a stream is emitted if and only if none is completed by that chunk |
| Decoder.FrameBeforeBadHeaderIsLost | harmony/HarmonyNetBridge/entry/src/main/ets/bridge/HnbProtocol.ets:217-245 | any valid frame and any bad header in one chunk lose the frame, and in two chunks they do not |
| Decoder.SomeFrameIsLost | harmony/HarmonyNetBridge/entry/src/main/ets/bridge/HnbProtocol.ets:217-245 | any PING with number 2, in literal bytes, followed by sixteen zero bytes in one chunk is lost |
| Decoder.PushedFramesAreValid | harmony/HarmonyNetBridge/entry/src/main/ets/bridge/HnbProtocol.ets:262-276 | every frame emitted obeys HNB/1 |
| Decoder.ThrowingIsPermanent | harmony/HarmonyNetBridge/entry/src/main/ets/bridge/HnbProtocol.ets:217-245 | a decoder that has thrown throws the same error on every later chunk |
| Decoder.GoReadsTheSame | internal/protocol/protocol.go:178-207 | repeated ReadFrame on a stream gives the frames of the incremental decoder and the same error, and ends cleanly exactly at a frame boundary or after a lone header |
| Decoder.DecodeExtend | harmony/HarmonyNetBridge/entry/src/main/ets/bridge/HnbProtocol.ets:226-243 | more input never changes a frame or an error already decided |
| Decoder.DecodeConserves | harmony/HarmonyNetBridge/entry/src/main/ets/bridge/HnbProtocol.ets:226-243 | the frames decoded and the bytes left are exactly the input |
| Decoder.HnbFrameDecoder.Push | harmony/HarmonyNetBridge/entry/src/main/ets/bridge/HnbProtocol.ets:217-245 | one push emits all frames complete in the retained and new bytes and retains the rest, or throws and retains everything |
| Decoder.EncodeFrame | harmony/HarmonyNetBridge/entry/src/main/ets/bridge/HnbProtocol.ets:196-210 | encoding succeeds exactly for frames that obey HNB/1, and the decoder reads the result back |
| Utf8.DecodeOfEncode | harmony/HarmonyNetBridge/entry/src/main/ets/bridge/HnbProtocol.ets:100-194 | decoding the encoding of any string gives the string with each lone surrogate replaced by U+FFFD |
| Utf8.EncodeOfDecode | harmony/HarmonyNetBridge/entry/src/main/ets/bridge/HnbProtocol.ets:144-194 | encoding what was decoded gives back every accepted input |
| Utf8.AcceptsExactlyEncodings | harmony/HarmonyNetBridge/entry/src/main/ets/bridge/HnbProtocol.ets:144-194 | the decoder accepts an input if and only if some string encodes to it |
| Utf8.DecodeOneOfEncode | harmony/HarmonyNetBridge/entry/src/main/ets/bridge/HnbProtocol.ets:125-139 | the bytes of every scalar value decode to it, whatever follows |
| Utf8.EncodeOfDecodeOne | harmony/HarmonyNetBridge/entry/src/main/ets/bridge/HnbProtocol.ets:148-183 | one decoded scalar value encodes to exactly the bytes consumed: overlong forms are refused |
| Utf8.ScalarLayout | harmony/HarmonyNetBridge/entry/src/main/ets/bridge/HnbProtocol.ets:125-139 | the bytes of every scalar value, by range and weight |
| Utf8.PairLayout | harmony/HarmonyNetBridge/entry/src/main/ets/bridge/HnbProtocol.ets:285-297 | the code point of every surrogate pair, and back |
| Utf8.DecodeErrors | harmony/HarmonyNetBridge/entry/src/main/ets/bridge/HnbProtocol.ets:148-183 | which error every undecodable input gives |
| Utf8.MeasureUtf8 | harmony/HarmonyNetBridge/entry/src/main/ets/bridge/HnbProtocol.ets:101-116 | the first pass measures exactly what the second writes |
| Utf8.EncodeUtf8 | harmony/HarmonyNetBridge/entry/src/main/ets/bridge/HnbProtocol.ets:100-142 | the second pass fills the array exactly, in bounds, with the encoding |
| Utf8.DecodeUtf8 | harmony/HarmonyNetBridge/entry/src/main/ets/bridge/HnbProtocol.ets:144-194 | the loop computes the recursive decoding and its errors |
| Channel.ReceiverTakesEverySentFrame | internal/daemon/server.go:162-169 | for every interleaving of writers up to the first write error, the n-th frame carries the n-th number, frames never mix, and a receiver of any part of the bytes decodes a prefix of the frames and takes them all |
| Channel.NextOfSequence | internal/daemon/server.go:1476-1481 | counting with wrap-around to 1 is ((n-1) mod (2^32-1))+1, never 0 |
| Channel.SameSequence | harmony/HarmonyNetBridge/entry/src/main/cpp/packet_pump.cpp:144-147 | two frames share a number if and only if they are a multiple of 2^32-1 apart |
| Channel.GapIsDetected | internal/daemon/server.go:978-988 | a loss of fewer than 2^32-1 frames in a row is always noticed: the frames before it are taken and none after it |
| Channel.WriteCompletes | internal/daemon/server.go:162-169 | whoever finds the writer free gets a valid frame out whole, with the next number |
| Channel.ReceiveFrames | internal/daemon/server.go:978-988 | the read loop takes exactly the decoded frames before the first unexpected number |
| Channel.FrameWriter.Write | internal/daemon/server.go:162-169 | the number is used up whatever happens; the wire gets the frame, or a prefix of it with an error |
| Channel.PacketWriter.SendFrame | harmony/HarmonyNetBridge/entry/src/main/cpp/packet_pump.cpp:320-333 | the number is used up only by a frame written completely |
| ControlSession.DaemonTakesUpToFirstLoss | harmony/HarmonyNetBridge/entry/src/main/ets/vpn/VpnControlSession.ets:218-233 | whatever queued sends fail, the daemon takes the frames before the first one lost, and nothing after it if and only if the loss is not a multiple of 2^32-1 |
| ControlSession.NothingIsLost | harmony/HarmonyNetBridge/entry/src/main/ets/vpn/VpnControlSession.ets:218-233 | while no send fails and no frame is refused, every frame asked for is written or waits, in order |
| ControlSession.VpnControlSession.Send | harmony/HarmonyNetBridge/entry/src/main/ets/vpn/VpnControlSession.ets:218-233 | a send takes the next number and queues the frame at the end, unless the encoder refuses it |
| ControlSession.VpnControlSession.Expect | harmony/HarmonyNetBridge/entry/src/main/ets/vpn/VpnControlSession.ets:164-168 | a frame is taken exactly if it carries the expected number |
| Heartbeat.TimesOutIffUnanswered | internal/daemon/server.go:1018-1045 | a tick closes the channel if and only if an earlier tick sent a PING at least the timeout ago and no PONG with its payload has come since, and then less than the timeout and one gap ago |
| Heartbeat.UnansweredIsPending | internal/daemon/server.go:177-200 | until the PONG with its payload comes, the tracker waits for a PING and no other is sent |
| Heartbeat.UnansweredEndsInTime | internal/daemon/server.go:1018-1045 | while a channel beats, no PING sent has gone without its PONG for the timeout and one gap |
| Heartbeat.BeatsOnIff | internal/daemon/server.go:1018-1045 | a channel goes on beating if and only if it is not stopped, no PING is overdue and the PING due was written |
| Heartbeat.StoppedForGood | internal/daemon/server.go:1018-1045 | a channel that has stopped sends nothing any more |
| Heartbeat.NonceLayout | internal/daemon/server.go:183-184 | the eight bytes of a PING are its time, the most significant first |
| Heartbeat.PingsAreSpaced | internal/daemon/server.go:1018-1045 | successive PINGs are less than the timeout and one gap apart |
| Heartbeat.IdealPings | internal/daemon/server.go:1018-1045 | with ideal ticks and a timeout of m intervals, successive PINGs are at most the timeout apart |
| Heartbeat.WatchdogStaysQuiet | harmony/HarmonyNetBridge/entry/src/main/ets/vpn/VpnControlSession.ets:267-275 | a beating channel never trips the watchdog if timeout, tick gap and frame delay make 20 seconds at most |
| Heartbeat.DefaultsKeepTheWatchdogQuiet | harmony/HarmonyNetBridge/entry/src/main/ets/vpn/VpnControlSession.ets:267-275 | with the default times and ideal ticks, frames may be delayed by up to five seconds |
| Heartbeat.StalePongIsIgnored | internal/daemon/server.go:177-200 | the PONG of one PING never answers another |
| Heartbeat.HeartbeatTracker.Begin | internal/daemon/server.go:177-188 | a PING begins exactly when none is under way; expiry is reported exactly of one under way for the timeout |
| Heartbeat.HeartbeatTracker.Acknowledge | internal/daemon/server.go:190-200 | exactly the matching payload ends the PING and gives its round trip |
| Heartbeat.Configure | internal/daemon/server.go:234-242 | the timeout is always longer than the interval, whatever was configured |
| Sniffer.SnifferFindsHost | internal/proxy/connect.go:492-601 | for every well-formed ClientHello, other extensions and names before the host_name, and every split into non-empty records, the sniffer returns the lower-cased host if usable |
| Sniffer.SniffsWholeMessage | internal/proxy/connect.go:492-530 | however a message is cut into records, exactly that message is judged, and not before it is complete |
| Sniffer.VerdictIsFinal | internal/proxy/connect.go:492-530 | a verdict other than "need more" is unchanged by any further input |
| Sniffer.JudgeMessage | internal/proxy/connect.go:508-527 | a complete handshake message is judged by its server name, a proper prefix not at all |
| Sniffer.SniffTLSClientHello | internal/proxy/connect.go:492-530 | on arbitrary input the loop stays in bounds and computes the recursive verdict |
| Sniffer.ClientHelloServerName | internal/proxy/connect.go:532-574 | on arbitrary input the parser stays in bounds and finds the first server_name extension's name |
| Sniffer.ServerNameFromExtension | internal/proxy/connect.go:576-601 | the first host_name entry of the list decides, and all indexing is in bounds |
| Sniffer.ValidProxyHostname | internal/proxy/connect.go:603-620 | accepts exactly names of at most 253 bytes that are no IPv4 address and whose labels are well formed |
| Sniffer.UsableIff | internal/proxy/connect.go:603-620 | for every list of dot-free labels: the joined name, with or without a final dot, is usable if and only if each label is 1 to 63 letters, digits and inner hyphens, it has at most 253 bytes and is not four decimal octets |
| Sniffer.LabelsOfDotted | internal/proxy/connect.go:608 | splitting at dots undoes joining |
| Sniffer.DottedOfLabels | internal/proxy/connect.go:608 | joining undoes splitting, and no label has a dot |
| Sniffer.JudgeRules | internal/proxy/connect.go:509-524 | when gathered handshake bytes are judged and how, with the weights of the length bytes |
| Sniffer.RecordOf256 | internal/proxy/connect.go:501 | a record whose length is written 01 00 holds 256 bytes |
| Sniffer.SpanOnlyIf | internal/proxy/connect.go:532-560 | an extension block is found only if there is a cipher and every length before it fits |
| Tunnel.NoByteIsLost | internal/proxy/connect.go:227-286 | until a write errs, bytes sent, in transit and held are exactly the bytes written; at most 64 KiB are held, and none once the tunnel exists |
| Tunnel.NoConnectionLeaks | internal/proxy/connect.go:288-347 | for every interleaving of Write and Close the proxy is dialled at most once, readers are released exactly when there is a connection or an error, and after Close and any establish every connection opened has been closed |
| Tunnel.FirstWriteCompletes | internal/proxy/connect.go:227-328 | a first write that decides, with a proxy that connects, gets all its bytes out to the chosen target |
| Tunnel.HttpDecides | internal/proxy/connect.go:457-468 | bytes that are not TLS on a port that is not 443 or 8443 are for the HTTP parser to decide |
| Tunnel.TargetOfRun | internal/proxy/connect.go:231-271 | in every run without an error the target dialled is the one that the payloads so far determine |
| Tunnel.TargetIsOfStream | internal/proxy/connect.go:258-267 | for TLS or the TLS ports and up to 64 KiB, the target is what the sniffer says of the whole stream |
| Tunnel.ChunkingDoesNotMatter | internal/proxy/connect.go:258-267 | two ways to cut such a stream into writes choose the same target |
| Tunnel.CutFreeIff | internal/proxy/connect.go:241-267 | for TLS or the TLS ports and any length, all cuts choose the same target if and only if the stream fits 64 KiB or no name shows in its first 64 KiB |
| Tunnel.ClientHelloDependsOnCut | internal/proxy/connect.go:241-267 | the ClientHello of any usable name followed by 64 KiB of data is a stream whose cut matters, on every port |
| Tunnel.SomeStreamDependsOnCut | internal/proxy/connect.go:241-267 | there is such a stream |
| Tunnel.LargeWriteSkipsSniffing | internal/proxy/connect.go:241-257 | where a held prefix shows a name, one write of more than 64 KiB goes to the dialled address and the same bytes cut after the prefix go to the name |
| Tunnel.WriteAllConnection | internal/proxy/connect.go:441-455 | the count is exactly the bytes that went out in order; success means all; an error comes exactly from a call that failed or took nothing |
| Tunnel.ReplayHeld | internal/proxy/connect.go:272-286 | the replay sends what was held in order and reports how many bytes of the caller's own payload went out |
| Tunnel.HostnameSniffingConn.WriteLocked | internal/proxy/connect.go:231-271 | the critical section of Write passes, refuses, keeps or dials, as the payload and the held bytes decide |
| Tunnel.HostnameSniffingConn.EstablishLocked | internal/proxy/connect.go:306-327 | a connection that comes after Close is handed back to be closed and never installed |
| Tunnel.HostnameSniffingConn.CloseLocked | internal/proxy/connect.go:330-342 | only the first Close gets the connection to close |
| Tunnel.HostnameSniffingConn.SniffHostname | internal/proxy/connect.go:457-468 | TLS bytes are judged as records, other bytes on TLS ports are unavailable, the rest is HTTP |
| DnsName.DNSQuestionName | internal/relay/dns.go:229-283 | terminates, and returns a name if and only if the message has a question whose bytes from offset 12 spell labels with at most 32 pointers; the name is those labels in lower case, in order, with one dot between neighbours; each error is returned only for its cause |
| DnsName.HasNameIffCarried | internal/relay/dns.go:229-283 | the offsets the loop visits end if and only if the bytes spell a name (section 4.1.4 of RFC 1035) |
| DnsName.RenderIsName | internal/relay/dns.go:247-250 | the text of labels is those labels in order, in lower case, by position |
| DnsName.QuestionIsCarried | internal/relay/dns.go:229-283 | a header with a question count, any printable labels as length and text, a zero byte and whatever follows carry exactly those labels |
| DnsName.PointedNameIsSpelled | internal/relay/dns.go:251-264 | labels followed by a pointer, in literal bytes, spell those labels and the ones it points to |
| DnsName.HopErrors | internal/relay/dns.go:241-277 | which error each unreadable step gives |
| DnsName.LoopHasNoExpansion | internal/relay/dns.go:249-262 | a jump to a target already seen means that there is no finite expansion, so the check refuses no name that has one |
| DnsName.ExpansionHasNoRepeat | internal/relay/dns.go:229-283 | a finite expansion never visits an offset twice |
| DnsName.TooManyJumps | internal/relay/dns.go:249-262 | a name refused for its jumps has more than 32 in any expansion |
| DnsName.ReadHop | internal/relay/dns.go:241-277 | one turn of the loop reads exactly the hop at the offset, in bounds |
| Resolvers.SelectResolver | internal/relay/dns.go:285-318 | picks the usable resolver with the longest matching suffix, then the lowest order, then the earliest, and none only if none matches |
| Resolvers.OneChoice | internal/relay/dns.go:285-318 | that specification has one answer |
| Resolvers.ChoiceIff | internal/relay/dns.go:285-318 | the choice is the highest score, then the lowest order, then the first place |
| Resolvers.ScoreRules | internal/relay/dns.go:290-305 | no nameserver scores nothing, no domain scores least, and otherwise a matching domain decides |
| Resolvers.MatchesIff | internal/relay/dns.go:320-322 | a domain matches itself and what ends with a dot and the domain |
| Resolvers.NormalizedIff | internal/relay/dns.go:324-326 | a domain is taken without one dot at its end |
| Resolvers.ChoiceSurvivesReordering | internal/relay/dns.go:285-318 | with distinct orders every permutation of the list gives the same resolver |
| Resolvers.LongestMatchIsMaximum | internal/relay/dns.go:292-305 | the score of a resolver is the length of its longest matching domain |
| DnsExchange.SystemDNS.Exchange | internal/relay/dns.go:87-117 | for a query with a name: a first round over the list that is current, and after a failure, unless the caller has gone, a second round over the list of a forced refresh whenever that gives one; every round is over a loaded list and accounts for each attempt; the answer is valid, of the last attempt and no truncated UDP reply; without a name nothing is sent |
| DnsExchange.SystemDNS.TwoRounds | internal/relay/dns.go:98-116 | the rounds, their lists, the result and the number of loads are exactly those of a first round and a due retry |
| DnsExchange.RetryIsMade | internal/relay/dns.go:101-116 | by the fields of the rounds: when there is a second one, over which list, and whose result is returned |
| DnsExchange.SystemDNS.SecondRound | internal/relay/dns.go:105-116 | the source is asked once more whatever the age of the list, and the round is over what that gives |
| DnsExchange.SystemDNS.ExchangeSelected | internal/relay/dns.go:119-144 | one round is the pass over the nameservers of the resolver chosen for the name, or none if no resolver serves it |
| DnsExchange.SystemDNS.AskServers | internal/relay/dns.go:124-143 | the loop makes exactly the attempts of the pass and returns its response |
| DnsRound.PassIsSound | internal/relay/dns.go:124-143 | in every pass an attempt ends it if and only if its outcome is usable, a valid truncated UDP answer is always followed by the TCP attempt at the same nameserver, and a TCP retry has no other cause |
| DnsRound.PassFollowsServers | internal/relay/dns.go:124-143 | the attempts follow the IPv4 nameservers in list order, each at most once per transport, and a pass fails only after all of them were tried |
| DnsRound.FlagsOfHeader | internal/relay/dns.go:152-225 | which bits of a reply make it an answer and a truncated one (section 4.1.1 of RFC 1035) |
| DnsExchange.RoundIsAccounted | internal/relay/dns.go:119-144 | both hold of every round of an exchange |
| DnsExchange.AnswerIsOfLastAttempt | internal/relay/dns.go:119-144 | an answer is what the last attempt received, echoes the ID, has the response bit and is no truncated UDP reply |
| DnsExchange.SystemDNS.ExchangeOne | internal/relay/dns.go:181-225 | exactly a valid answer to this query gets through |
| DnsExchange.SystemDNS.CurrentResolvers | internal/relay/dns.go:156-179 | the cached list if and only if it is younger than the reload interval, else a fresh one, or the last good one when the load fails; the source is asked exactly when the list is not young; a list returned was loaded |
| DnsCalls.ListsAreGenuine | internal/relay/dns.go:87-179 | however queries overlap, every round is over a list that a load gave |
| DnsCalls.SecondRoundIsRefreshed | internal/relay/dns.go:105-179 | however queries overlap, a second round is over a list loaded after its own first round failed, unless every load since then gave none |
| Pump.FdClosedOnceAfterJoins | harmony/HarmonyNetBridge/entry/src/main/cpp/packet_pump.cpp:157-310 | in every run each socket fd is closed at most once, never while a thread that uses it is unjoined, and one not closed is in socketFd_ or in the hands of Connect |
| Pump.StopLeavesNothing | harmony/HarmonyNetBridge/entry/src/main/cpp/packet_pump.cpp:292-310 | after a stop no thread is left, the pump is neither running nor connected, and every fd ever opened has been closed once |
| Pump.RunningMeansNeitherExited | harmony/HarmonyNetBridge/entry/src/main/cpp/packet_pump.cpp:244-277 | between operations Running() means that both threads were started and neither has exited |
| Pump.StartsIff | harmony/HarmonyNetBridge/entry/src/main/cpp/packet_pump.cpp:244-258 | in every run a start succeeds if and only if there is a TUN, a socket and no unjoined thread, and then the pump runs with its counters and error reset |
| Pump.RunsUntilHalted | harmony/HarmonyNetBridge/entry/src/main/cpp/packet_pump.cpp:244-318 | from a start until the next, the pump runs if and only if no stop and no failure has halted it |
| Pump.SentInOrder | harmony/HarmonyNetBridge/entry/src/main/cpp/packet_pump.cpp:335-380 | what was sent is, in order, the acceptable packets read since Start cut to their length, but for at most one, and the opposite pump accepts each of them |
| Pump.PacketsBalance | harmony/HarmonyNetBridge/entry/src/main/cpp/packet_pump.cpp:335-380 | between packets, those read since Start are the forwarded, the dropped and at most one whose send failed |
| Pump.FirstErrorStays | harmony/HarmonyNetBridge/entry/src/main/cpp/packet_pump.cpp:312-318 | the first error stays until the next Connect or Start that succeeds |
| Pump.CutIsDeliverable | harmony/HarmonyNetBridge/entry/src/main/cpp/packet_pump.cpp:363-428 | a packet cut by one pump passes the check of the other, and a packet that passes is forwarded whole |
| Pump.PacketRules | harmony/HarmonyNetBridge/entry/src/main/cpp/packet_pump.cpp:363-428 | which packets are forwarded and how much of them, and which payloads are taken, by their bytes |
| Pump.PacketPump.Start | harmony/HarmonyNetBridge/entry/src/main/cpp/packet_pump.cpp:244-258 | starts exactly on a connected pump whose threads have been joined, with all counters, the error and the sequence reset |
| Pump.PacketPump.Install | harmony/HarmonyNetBridge/entry/src/main/cpp/packet_pump.cpp:238-240 | a connect that succeeds installs its fd and clears the error |
| Pump.PacketPump.Fail | harmony/HarmonyNetBridge/entry/src/main/cpp/packet_pump.cpp:312-318 | keeps the first error, stops running and shuts the socket down |
| Pump.PacketPump.Halt | harmony/HarmonyNetBridge/entry/src/main/cpp/packet_pump.cpp:294-297 | a stop first halts the pump and shuts the socket down, if there is one |
| Pump.PacketPump.Clear | harmony/HarmonyNetBridge/entry/src/main/cpp/packet_pump.cpp:304-309 | gives the fd to close and forgets it |
| Pump.PacketPump.PumpPacket | harmony/HarmonyNetBridge/entry/src/main/cpp/packet_pump.cpp:363-378 | a packet is dropped exactly if it is not acceptable, and is otherwise sent cut to its length and counted with its bytes, or ends the loop with its error and a shutdown |

## Left out

- The packet relay engine on gVisor, and TCP and UDP bridging: the behaviour is in a library.
- Process supervision, hdc commands, certificate files, log rotation, the CLI and the device's user interface: input and output of the operating system.
- JSON, token generation and HTTP parsing: library calls. HELLO payloads are decoded records, and what HTTP sniffing finds is a parameter.
- App routing lists and reconnect delays: table lookups, with no interleaving and no parsing to get wrong.
- Agreement of the published snapshot with the slots, and control-channel numbers during shutdown: the code does not promise them under every interleaving.
- `controlWriter`, `dataWriter`, the stop acknowledgement and HELLO_ACK encoding failures of the daemon.
- Handshake and stop promises, and the frame types that `handleFrame` answers, of the control session: only its numbers, its queue and its watchdog are modelled.
- The payload checks and the TUN writes of `PumpSocketToTun` beyond the check shared with the other direction: the thread's failures are steps, what it delivers is not tracked.
- The relay's counters; the pump's byte counters are in its methods and not in its step system.
- Deadlines of connections: a read or write that times out is one that fails.
- SupervisorTheorems.PublishOrder: assumes unguessable tokens, because without them the order is false.
- Sniffer.ValidProxyHostname: the address test covers dotted IPv4; a name with a colon fails the label test, as any IPv6 address must, and lower-casing is of ASCII.
- Resolvers.SelectResolver: trimming and lower-casing of a domain is an arbitrary function `fold`, because Unicode case mapping is a library's.
- DnsExchange.SystemDNS.ExchangeOne: dialling, writing and reading are one arbitrary outcome; the two-byte length of DNS over TCP is not modelled.
- DnsExchange.SystemDNS.Exchange: the transport is UDP or TCP by its type, so the refusal of other names is not modelled; overlapping calls are in `DnsCalls`, where a round is one step.
- Heartbeat.TimesOutIffUnanswered: a data channel whose ticks are skipped since the VPN is not active meets the bounds only between ticks that are not skipped.
- ControlSession.DaemonTakesUpToFirstLoss: a send that fails loses its whole frame; a frame of which the socket took a part is not modelled, because nothing can be promised of the bytes after it.
- Channel.PacketWriter.SendFrame: a payload length is below 2^32, as its C++ type says.
