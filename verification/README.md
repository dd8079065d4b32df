# kirdi: a verified model

kirdi is a small VPN. A client and a server exchange framed IP packets over a WebSocket; the
server gives each connection a virtual address, authenticates it with an HMAC token, and
routes packets from its TUN device to the session that owns their destination. This project
models the parts of it that are hard to get right and proves what they keep over every run:

* the concurrent writer of the three transports and the frame codec, end to end;
* address allocation, the two routing maps, and isolation between any number of clients;
* the token window loop over wrapping 64-bit time stamps, and the auth decision;
* a server session under every interleaving of its strand with the TUN thread;
* the client's reconnect life cycle, and the handshake of a client with a session;
* the whole way of a packet from one TUN device to the other, in both directions.

## How it is built

Every object whose methods update its fields is a class (`WsTransport`, `ClientSession`,
`Server`, `Client`); each method's contract gives the whole new state as a function of the old
one. The same functions are the steps of state machines (of the server's two maps they are those
of `Routing`, see `Fleet.RefinesRouting` and `Server.Server.LookupFinds`) whose actions are single
pieces of uninterrupted code: one test of an atomic flag, one critical section, one start or
completion of an asynchronous operation. An action that is impossible in a state leaves it
unchanged, so a run is any list of actions, and a lemma over all lists is a statement over all
interleavings.

| file | content |
|---|---|
| Basics.dfy | integer widths, wrap-around, result types |
| Protocol.dfy | the frame codec and `dispatch_packet` |
| Hex.dfy, Window.dfy, Crypto.dfy | hex text, the verification loop, tokens |
| Transport.dfy, TransportProofs.dfy, Link.dfy | the transports, their invariants, end-to-end delivery |
| Address.dfy, Acceptor.dfy, Routing.dfy, Server.dfy | addresses, the accept counters, the index, the server object |
| Session.dfy, Strand.dfy, Fleet.dfy | a server session, its interleavings, all sessions together |
| Client.dfy, Lifecycle.dfy, Handshake.dfy | the client object, its connections over time, both parties |
| Order.dfy, Tunnel.dfy, Uplink.dfy | session, wire, client transport and client together, down and up |

## What the environment provides

HMAC-SHA256 is an arbitrary function to 32 bytes; a lemma that needs it not to collide says on
which messages: two given ones, or one user's stamps against a given one
(`Crypto.NoCollisionIsPossible` shows a function that meets this). The JSON library is a pair of
arbitrary functions between payloads and records with optional fields; only the two-party lemmas
assume anything of it, namely that each side reads what the other writes for the requests this
client makes and the two replies this session gives (`Handshake.CompatibleParties` gives such
functions for all parties). The clock,
the TUN device, accepts, errors and thread scheduling are parameters or actions. Of Asio and
Beast the model keeps: one completion per operation, strand handlers one at a time, messages
delivered in order. A write takes the contents of its buffer when the stream sends it, not when
the write was started, so that reuse of the buffer would be visible.

## Where code and documentation differ

The model follows the code.

* `src/server/session.cpp:92-95` says that the connection is closed after sending the rejection.
  The rejection is queued (`Strand.RejectionIsQueued`) and never written
  (`Strand.RejectionIsNeverWritten`).
* `src/client/client.cpp:234` describes exponential backoff. The counter never passes one, so
  every delay is one second, and a connect chain that fails is not retried
  (`Lifecycle.TokenConservation`, `Lifecycle.ReconnectHappens`, `Lifecycle.FailedChainIsFinal`).
* `src/common/crypto.hpp:16` has the server validate the time stamp. The stamp that opens the
  window is the claimed one, so the server's clock never causes a rejection
  (`Session.HonestClientAccepted`), unless the claimed one is within 30 seconds of either end of
  the 64-bit range (`Session.HonestClientAcceptedIff`).
* `src/common/crypto.cpp:90` loops forever when its upper bound is 2^64 - 1 and no second at all
  matches (`Window.LoopEndsIff`, `Session.AuthHangsIff`), which some request brings about for
  every non-empty secret and at every time (`Session.SomeRequestHangs`). The model carries this as a verdict of
  its own; `VerifyAuthToken` and `HandlePacket` require only that this verdict is not the case.
* An IP packet can be queued for a session that has just lost its authentication
  (`Strand.QueuedAfterRevocation`, and exactly when in `Strand.QueuedWhileAuthenticatedIff`).
  Of every packet that is written the property holds (`Strand.WrittenPacketsAreLegitimate`).

* `src/server/session.cpp:69` sets the flag before the auth response is sent at line 90, so IP
  packets can reach the client first. It has no TUN device yet and drops them
  (`Handshake.TunnelOpens`, for any number of them). Exactly when the answer is the first message
  nothing is lost (`Handshake.NothingLostIff`); seen from the router,
  `Tunnel.EverythingWrittenIff` says when everything arrives.

## Model

| member | source | states |
|---|---|---|
| Protocol.SerializeHeader | src/common/protocol.hpp:61-71 | the type byte and the four length bytes, most significant first, replace the first five bytes and nothing else; a short buffer throws and is untouched |
| Protocol.BuildPacket | src/common/protocol.hpp:91-100 | throws exactly above 65535 bytes, otherwise yields type byte, length and payload, byte by byte |
| Protocol.HeaderRoundTrip | src/common/protocol.hpp:74-86 | a header followed by anything is read back exactly when its length is within bounds, and refused otherwise |
| Protocol.DispatchIff | src/transport/ws_transport.cpp:7-23 | the parser yields a message exactly for the buffers that begin with its built packet |
| Protocol.DispatchOfEncode | src/transport/ws_transport.cpp:13-21 | a built packet with any trailing bytes dispatches to its type and payload |
| Protocol.FramesArePrefixFree | src/common/protocol.hpp:91-100 | no built packet is a proper prefix of another |
| Protocol.DispatchAllOfEncodeAll | src/transport/ws_transport.cpp:139-141 | dispatching a sequence of built packets gives the messages back |
| Protocol.DispatchAllConcat | src/transport/ws_transport.cpp:139-141 | dispatch of a message sequence is a filter-map, malformed messages vanish without touching their neighbours |
| Hex.HexEncode | src/common/crypto.cpp:36-45 | the loop appends the two-digit text of every byte in order |
| Hex.HexDecode | src/common/crypto.cpp:47-59 | throws exactly for odd lengths, otherwise parses every pair as strtoul does, non-digits included |
| Hex.DecodedOfEncoded | src/common/crypto.cpp:36-59 | decoding inverts encoding on every byte string |
| Hex.EncodedOfDecodedIff | src/common/crypto.cpp:36-59 | encoding what was decoded gives the lowercase text back exactly for whole pairs of hex digits |
| Hex.HexStampValue | src/common/crypto.cpp:77-79 | the 17-byte buffer holds exactly sixteen digits of every 64-bit stamp, and they denote it |
| Hex.ParseByteIsStrtoul | src/common/crypto.cpp:54-56 | what the decoder makes of two characters is what strtoul does with them: white space, sign and prefix included |
| Hex.SpacesAre | src/common/crypto.cpp:54-56 | the six white-space characters of the C locale |
| Crypto.BuildAuthToken | src/common/crypto.cpp:73-83 | the token is the hex text of the MAC, under the secret, of a message made of sixteen lowercase hex digits that denote the stamp, a colon and the user |
| Crypto.MacMessageIsSigned | src/common/crypto.cpp:77-80 | the same message, character by character, for every user and stamp |
| Crypto.MacMessageInjective | src/common/crypto.cpp:77-80 | stamp and user can be read back from the authenticated message, colons in the user included |
| Crypto.TokenInjective | src/common/crypto.cpp:73-83 | unless the HMAC collides on these two messages, tokens are equal exactly for equal user and stamp |
| Window.Search | src/common/crypto.cpp:85-99 | the wrapping loop ends with the verdict whenever there is one |
| Window.LoopEndsIff | src/common/crypto.cpp:90-98 | the loop ends exactly unless its bound is 2^64 - 1 and no stamp passes, and only with the verdict |
| Window.WindowExact | src/common/crypto.cpp:85-99 | a window below 2^63 accepts exactly if neither bound wraps and some stamp within it passes, and ends at once if a bound wraps; a larger one accepts exactly if one bound wraps and a stamp between the wrapped bounds passes; it stops within 2 * window + 2 guard tests |
| Crypto.VerifyAuthToken | src/common/crypto.cpp:85-99 | the call returns the verdict of the loop for tokens |
| Crypto.HonestTokenAccepted | src/common/crypto.cpp:85-99 | a token made for the claimed second is accepted unless the window wraps |
| Crypto.HonestTokenWindow | src/common/crypto.cpp:85-99 | if no other second of the user collides with its own, an honest token is accepted exactly at claimed times within the window |
| Crypto.NoCollisionIsPossible | src/common/crypto.cpp:73-83 | functions to 32 bytes without such collisions exist, so the statements that assume it are not empty |
| Transport.WsTransport.constructor | src/transport/ws_transport.hpp:74-81 | neither connected nor closing nor writing, empty queue and buffers |
| Transport.WsTransport.Start | src/transport/ws_transport.cpp:199-204 | a server session is connected, then reading |
| Transport.WsTransport.MarkUp | src/transport/ws_transport.cpp:105-106 | the connected flag is set, on either kind of transport, and nothing else |
| Transport.WsTransport.BeginRead | src/transport/ws_transport.cpp:123-130 | a read starts, on the client only if it is not closing |
| Transport.WsTransport.Send | src/transport/ws_transport.cpp:112-121 | a closing client and an unconnected session drop the frame; otherwise it joins the end of the queue and a writer is posted exactly when none was active |
| Transport.WsTransport.DoWrite | src/transport/ws_transport.cpp:144-161 | with a closed gate nothing, with an empty queue the flag is cleared, else the first frame moves to the buffer and its write starts |
| Transport.WsTransport.TakeFrame | src/transport/ws_transport.cpp:147-155 | the critical section of do_write |
| Transport.WsTransport.OnWrite | src/transport/ws_transport.cpp:163-169 | success continues with the next frame, an error starts nothing and clears the connected flag; the error callback is called exactly by a client that is not closing |
| Transport.WsTransport.Fail | src/transport/ws_transport.cpp:183-188 | a closing client ignores the error, any other is disconnected and calls the error callback |
| Transport.WsTransport.Close | src/transport/ws_transport.cpp:171-181 | a client is closing and, unless it already was, unconnected; a session is unconnected |
| Transport.WsTransport.OnRead | src/transport/ws_transport.cpp:132-142 | dispatches the whole buffer, empties it and reads on; an error disconnects, ends the reading and is reported except by a closing client |
| Transport.WsTransport.TakeMessage | src/transport/ws_transport.cpp:139 | the message is appended to the buffer and the packet in the whole buffer is handed on |
| Transport.WsTransport.ResumeRead | src/transport/ws_transport.cpp:140-141 | the buffer is emptied, and reading goes on unless the packet callback closed the client |
| Transport.SendCallIsARun | src/transport/ws_transport.cpp:206-215 | a whole send is its gate test followed by its critical section |
| Transport.DoWriteCallIsARun | src/transport/ws_transport.cpp:239-256 | a whole do_write is its gate test, critical section and start of the write |
| TransportProofs.RunInv | src/transport/ws_transport.cpp:112-169 | every interleaving keeps the transport invariant, for both kinds of gate |
| TransportProofs.SingleWriterNoLostWakeup | src/transport/ws_transport.cpp:206-265 | at most one writer token; a non-empty queue means writing; with an open gate and no write error it means exactly one token |
| TransportProofs.BufferIsStable | src/transport/ws_transport.hpp:78-81 | the buffer of an outstanding write holds the frame it was started with |
| TransportProofs.Ledger | src/transport/ws_transport.cpp:293-352 | accepted frames are, in order, those written, at most one in flight, at most one in hand, and the queue; only a failed write loses its frame |
| TransportProofs.FreezeAfterClose | src/transport/ws_transport.cpp:171-181 | after the gate closes no write starts but one whose gate test had passed, none if the strand closed it |
| TransportProofs.CloseIsFinal | src/transport/ws_transport.cpp:171-173 | after a close, in every continuation, no write starts but one whose gate test had passed, and no frame is accepted but from calls already past the gate |
| TransportProofs.ReadErrorIsFinal | src/transport/ws_transport.cpp:224-232 | after a failed read on a session no write starts and no further call of send is accepted |
| TransportProofs.ReadErrorShuts | src/transport/ws_transport.cpp:132-137 | a failed read disconnects either kind and closes the gate of a session, while a client's gate stays as it was |
| TransportProofs.WriteErrorShuts | src/transport/ws_transport.cpp:258-263 | a failed write closes a session's gate and disconnects a client that is not closing |
| TransportProofs.ShutAcceptsNothing | src/transport/ws_transport.cpp:206-209 | behind a closed gate only calls already past it add frames |
| TransportProofs.FreezeAfterError | src/transport/ws_transport.cpp:163-169 | after a write error no write ever starts again and the writing flag stays set |
| TransportProofs.DrainProgress | src/transport/ws_transport.cpp:239-265 | every schedule of writer steps, incoming messages, gate tests and opening drains an open transport in exactly the computed number of effective writer steps, and no writer step is left exactly when all accepted frames are written |
| TransportProofs.DrainSchedule | src/transport/ws_transport.cpp:326-352 | from every such state a draining schedule exists |
| Link.EndToEnd | src/transport/ws_transport.cpp:112-169 | for every interleaving the peer's callback has seen a prefix of the accepted messages, and all of them once the writing flag is clear and the wire read |
| Link.DeliveryProgress | src/transport/ws_transport.cpp:112-169 | every schedule that adds no frame and leaves the gate open needs exactly the computed number of effective writer steps and deliveries, after which, and not before, nothing is in flight and the peer has seen everything |
| TransportProofs.NotWritingIsDrained | src/transport/ws_transport.hpp:78-81 | the writing flag is clear exactly if queue, hand and flight are empty and every accepted frame is on the wire |
| Link.EventuallyDelivered | src/transport/ws_transport.cpp:206-237 | from every state with a healthy sender and a reading peer, whatever the peer's own writer is doing, some continuation delivers everything accepted |
| Link.SendIsAccepted | src/transport/ws_transport.cpp:112-121 | while the gate is open a call of send is accepted, in the state it leaves |
| Address.MemoryRoundTrip | src/common/protocol.hpp:138-143 | copying address bytes to a host integer and back loses nothing on either byte order |
| Address.ByteOrderRoundTrip | src/server/server.cpp:40-42 | ntohl and htonl undo each other on either byte order |
| Address.InetRoundTrip | src/server/server.cpp:44-46 | every address survives inet_ntop and inet_pton |
| Address.InetPtonIff | src/server/server.cpp:39 | the parser accepts exactly the texts the printer produces |
| Address.InetNtopIsDotted | src/server/server.cpp:44-46 | the text is the four octets in canonical decimal, first byte first, with dots between |
| Address.HostInteger | src/common/protocol.hpp:138-143 | the host integer counts the first byte most or least by byte order, and ntohl makes it the number in network order |
| Address.ClientIpMeaning | src/server/server.cpp:35-47 | the allocated text is the dotted form of subnet + offset modulo 2^32 on every host |
| Address.AllocatedNumber | src/server/server.cpp:35-47 | as numbers: subnet plus offset modulo 2^32, an unparsable subnet counting as zero |
| Address.VirtualAddressNumber | src/server/server.cpp:35-47 | as numbers: subnet plus id plus one modulo 2^32 |
| Address.KeyMatchesDestination | src/server/session.cpp:11-17 | a session's key equals the key read from a packet exactly when bytes 16 to 19 are the session's address |
| Address.VirtualAddressInjective | src/server/server.cpp:35-47 | distinct ids get distinct addresses |
| Address.VirtualAddressOnto | src/server/server.cpp:35-47 | every address belongs to some id |
| Acceptor.IssuedPairs | src/server/server.cpp:184-195 | on every run connection n gets id n + 1 and offset id + 1 modulo 2^32 |
| Acceptor.Connections | src/server/server.cpp:177-198 | any number of connections do get a pair, with the acceptor armed again after each |
| Acceptor.AddressReuse | src/server/server.cpp:266 | ids and addresses repeat exactly after whole wraps of the counters; any 2^32 consecutive connections differ |
| Routing.InsertKeepsIndex | src/server/server.cpp:285-292 | registering, a reused id included, keeps the two maps inverse to each other |
| Routing.IndexInv | src/server/server.cpp:285-292 | every order of registrations and authentications does |
| Routing.RouteRefinesSearch | src/server/server.cpp:330-339 | the two-step lookup equals a search for the authenticated session that owns the destination, on either byte order |
| Server.Server.constructor | src/server/server.hpp:45-50 | empty maps, counters at 1 and 2 |
| Server.Server.AllocateClientIp | src/server/server.cpp:35-47 | takes the next offset and renders, in dotted decimal, the address whose number is subnet plus offset modulo 2^32 |
| Server.Server.OnAccept | src/server/server.cpp:184-198 | the id and the address handed to a connection belong together |
| Server.Server.RegisterSession | src/server/server.cpp:269-296 | a fresh unauthenticated session under its id in both maps, with the server's secret, address and TUN settings, so that with a secret only tokens made with it are accepted and the positive answer offers these settings; started, the index still consistent |
| Server.FleetConfig | src/server/server.cpp:272-277 | the configuration of the n-th client in the fleet is the one it is registered with |
| Server.Server.Publish | src/server/server.cpp:285-292 | the critical section of registration as an insertion into the index |
| Server.Server.SendToOwner | src/server/server.cpp:330-339 | exactly the authenticated session with the packet's key is sent the packet; it throws exactly if there is one and the packet is oversized |
| Server.Server.LookupFinds | src/server/server.cpp:330-335 | the lookup finds exactly the authenticated session with that key |
| Server.Server.RouteToClient | src/server/server.cpp:318-340 | a raw packet goes to the authenticated session whose address is its bytes 16 to 19, and every other transport is untouched; short packets go nowhere; it throws exactly for an oversized packet with such an owner |
| Session.ClientSession.constructor | src/server/session.cpp:11-17 | an unauthenticated session whose key is parsed from its address |
| Session.ClientSession.Start | src/server/session.cpp:28 | starts the transport |
| Session.ClientSession.SendIpPacket | src/server/session.cpp:132-135 | one frame of type 3 around the packet is accepted by a connected transport; a packet above 65535 bytes throws |
| Session.ClientSession.Close | src/server/session.cpp:137-139 | closes the transport, whose gate is then shut |
| Session.ClientSession.CheckAuth | src/server/session.cpp:36-67 | the auth branch returns the decision |
| Session.ClientSession.HandlePacket | src/server/session.cpp:31-130 | flag, replies, close and forwarded packets for every packet type, unless the loop hangs |
| Session.PacketMeaning | src/server/session.cpp:99-129 | on an open session, by type byte: an IP packet is forwarded if the flag is set, a keepalive echoed as an empty keepalive frame, a ping answered by a pong with its payload, a disconnect closes, anything else does nothing; the flag stays |
| Session.AuthMeaning | src/server/session.cpp:33-97 | an auth request sets the flag to the decision and queues one answer with the configured addresses; a refusal also closes |
| Session.ClientSession.Receive | src/server/session.cpp:19-29 | the packet callback that is wired up: a message read is dispatched and handled before reading goes on |
| Session.AuthDecision | src/server/session.cpp:36-69 | for all inputs: accepted exactly if the request parses and no secret is set, or a token is given and is that of a second within 30 of the claimed time or of the server's clock (windows that wrap cover nothing, except at 2^64 - 31, where every second counts) |
| Session.AcceptedMeansToken | src/server/session.cpp:43-53 | with a secret, whatever is accepted carries a token made with it for the claimed user |
| Session.AuthHangsIff | src/server/session.cpp:43-53 | the handler hangs exactly for a non-empty token that no second matches, with claimed time or server clock at 2^64 - 31 |
| Session.SomeRequestHangs | src/server/session.cpp:43-44 | a request on which the handler never returns, for every non-empty secret, user and server clock |
| Session.HonestClientAccepted | src/client/client.cpp:118-131 | a client with the secret and a clock in [30, 2^64 - 31] is accepted whatever the server's clock |
| Session.HonestClientAcceptedIff | src/server/session.cpp:43-53 | for all clocks, if the HMAC does not collide for this user: accepted exactly without a secret, or with the client's clock in that range, or the server's clock clear of the ends and within 30 seconds of it, or at 2^64 - 31 |
| Session.SessionTrace | src/server/session.cpp:31-130 | for every packet sequence the forwarded payloads are those of IP packets whose latest auth request was accepted, and every ping gets one pong with its payload |
| Strand.RunInv | src/server/session.cpp:31-135 | every interleaving of strand and TUN thread keeps the session invariant |
| Strand.WrittenPacketsAreLegitimate | src/server/session.cpp:69-96 | every IP packet written to a client has its address in bytes 16 to 19 and was queued while the session was authenticated |
| Strand.WritesEverything | src/transport/ws_transport.cpp:239-265 | from every state with an open, healthy transport and no packet being handled, the strand can put everything pushed on the wire, and change nothing else |
| Strand.RejectionIsNeverWritten | src/server/session.cpp:90-95 | after the first rejection neither its reply nor anything queued later is ever handed to the stream |
| Strand.RejectionIsQueued | src/server/session.cpp:86-95 | a run in which the rejection is accepted by the transport and left in its queue behind a closed gate |
| Strand.QueuedAfterRevocation | src/server/server.cpp:334-335 | a run in which a packet is queued after the authentication was revoked |
| Strand.QueuedWhileAuthenticatedIff | src/server/server.cpp:334-335 | a packet that passed the auth test is queued while authenticated exactly if no auth request was rejected in between, or another accepted after it |
| Strand.HandlerIsHandlePacket | src/server/session.cpp:31-130 | the steps of a packet handler without interruption are the effects of the whole call in order |
| Strand.TunStepsAreSendIpPacket | src/server/session.cpp:132-135 | likewise for the steps of the TUN thread |
| Fleet.TargetOwnsPacket | src/server/server.cpp:330-335 | the session found by the lookup owns bytes 16 to 19 of the packet |
| Fleet.TargetIsLookup | src/server/server.cpp:330-335 | the lookups among sessions, with the auth test, are the index lookup |
| Fleet.RefinesRouting | src/server/server.cpp:285-292 | in every run of the fleet the maps are those of an index with some history of registrations and authentications |
| Fleet.RoutedIff | src/server/server.cpp:318-340 | in every run a packet finds a client exactly if that client holds its id, is authenticated and owns the destination |
| Fleet.HandedIff | src/server/server.cpp:318-340 | and it is handed to that client exactly if it also fits a frame and the TUN thread holds none for it |
| Fleet.CanBeServed | src/server/server.cpp:269-340 | for every client there is a run that registers it, authenticates it and hands it a packet |
| Fleet.FailedIsFinal | src/server/server.cpp:201-238 | a client whose handshake failed is never registered |
| Fleet.SessionRun | src/server/server.cpp:269-296 | what one session does in a run of the fleet is a run of that session alone, routing included |
| Fleet.Isolation | src/server/server.cpp:269-340 | for any number of clients in any order, whatever a client has read are its own session's messages, and IP packets among them were queued while authenticated and carry in bytes 16 to 19 the address that its session announces |
| Fleet.NoSharedTraffic | src/server/server.cpp:318-340 | clients less than 2^32 accepts apart never receive the same IP packet |
| Client.Client.constructor | src/client/client.cpp:64-90 | a running, unconnected client with a first transport |
| Client.Client.OnConnected | src/client/client.cpp:111-116 | connected, counter reset, auth request sent |
| Client.Client.OnHandshake | src/transport/ws_transport.cpp:102-110 | the transport is connected, the connect callback sends one auth request frame, then reading starts |
| Client.ForwardedAfterHandshake | src/client/client.cpp:275-277 | after the handshake the transport is connected and accepts the auth request and then what is forwarded |
| Client.Client.SendAuth | src/client/client.cpp:118-138 | the request carries user, clock and the token for both |
| Client.Client.OnPacket | src/client/client.cpp:140-212 | TUN set-up, stop, TUN write or keepalive reply for every packet type; the TUN thread is started exactly by an accepting response whose device opens and whose route set-up does not throw |
| Client.AnswerMeaning | src/client/client.cpp:142-186 | a positive answer puts a device with the offered settings or their defaults in place; a negative one, or a device that does not open, stops the client and leaves no open device; an unreadable one does nothing |
| Client.PacketMeaning | src/client/client.cpp:189-211 | by type byte: an IP packet is written to an open device, a keepalive echoed by a connected transport, anything else does nothing |
| Client.Client.Receive | src/client/client.cpp:250-255 | the packet callback that is wired up, also for a transport that has been replaced: the message is handled before reading goes on, answers go to the current transport, which stops reading if the client stopped |
| Client.Client.OnError | src/client/client.cpp:214-230 | only a connected client reacts: unconnected, TUN gone, and if it is still running the counter incremented and a timer started |
| Client.Client.ScheduleReconnect | src/client/client.cpp:232-238 | counter incremented, the delay computed from it |
| Client.Client.OnTimer | src/client/client.cpp:244-256 | a fresh transport unless the timer failed or the client stopped |
| Client.Client.Stop | src/client/client.cpp:96-109 | once: not running, transport closing, no open TUN, the executor halted |
| Client.Client.ForwardFromTun | src/client/client.cpp:271-277 | a non-empty packet becomes one frame of type 3 accepted by a connected, open transport; one above 65535 bytes throws |
| Client.Client.TunReadLoop | src/client/client.cpp:260-278 | the loop throws exactly at an oversized packet while the client runs with an open device; the non-empty packets before it have been offered to a connected transport in order |
| Client.ForwardingKeepsOrder | src/client/client.cpp:263-278 | an open transport accepts each forwarded packet once, in order |
| Lifecycle.HalvesOfOnError | src/client/client.cpp:214-230 | the two interruptible halves of on_error make up the call |
| Lifecycle.TokenConservation | src/client/client.cpp:214-258 | in every run exactly one connection attempt exists; on_connected never runs while connected, the counter never exceeds one, every delay is one second |
| Lifecycle.ReconnectHappens | src/client/client.cpp:227-257 | a run in which the one delay occurs and the next connect chain starts |
| Lifecycle.RetiredIsForever | src/client/client.cpp:214-217 | once the attempt has ended without a successor nothing connects again |
| Lifecycle.FailedChainIsFinal | src/transport/ws_transport.cpp:183-188 | a failing connect chain is such an end |
| Lifecycle.StopIsFinal | src/client/client.cpp:96-109 | after stop, whatever was pending, the client stays stopped, its transport closing, and no timer starts and no transport is made |
| Lifecycle.ClosedIsSilent | src/transport/ws_transport.cpp:183-184 | a closing transport reports no error, and one that is not up no failed read or write |
| Lifecycle.DelayBound | src/client/client.cpp:235-238 | for every counter value: one second first, doubling up to the sixth attempt, 32 seconds from there and at the wrapped zero |
| Handshake.HandshakeSafety | src/client/client.cpp:140-182 | in every run, IP packets ahead of the auth response included: one auth request and then only IP packets one way, at most one answer among IP packets the other; an open TUN means the server has authenticated the session with that address; no packet is dropped for lack of it; the server's TUN has every packet read from the client, an open client TUN every packet read after the answer |
| Handshake.NothingLostIff | src/server/session.cpp:69-90 | in every run an open client TUN has all IP packets read so far exactly if the answer was the first message, and otherwise lacks as many as preceded it |
| Handshake.OpenSinceAnswer | src/client/client.cpp:96-109 | in every run an open client TUN was opened by an answer, and since then no error has met the connected client and nobody has stopped it |
| Handshake.UnauthenticatedPacket | src/server/session.cpp:99-103 | an IP packet that meets an unauthenticated session is dropped and counted |
| Handshake.TunnelOpens | src/server/session.cpp:69-90 | parties that share the secret open the tunnel whatever their clock skew and whatever packets overtake the answer, which the client drops; the whole state is given |
| Handshake.TunnelCarries | src/client/client.cpp:271-277 | through such a tunnel a packet passes each way |
| Handshake.CompatibleParties | src/client/client.cpp:126-131 | for every configuration of both sides there are JSON functions that meet the hypothesis of the two lemmas above |
| Tunnel.RunInv | src/client/client.cpp:189-197 | every interleaving of session, wire, client transport and client keeps the accounts of routed packets |
| Tunnel.Delivery | src/server/server.cpp:318-340 | in every run what the client writes to its TUN is an in-order part of what was routed to it, each packet with its address in bytes 16 to 19 and queued while authenticated; every routed packet is written, met no open device, is on its way, is held by the TUN thread or met a closed gate |
| Tunnel.EverythingWrittenIff | src/client/client.cpp:189-197 | everything routed has been written exactly if nothing is on its way and no packet met a closed gate or a client without a device |
| Tunnel.EverythingArrives | src/transport/ws_transport.cpp:239-265 | from every state with an open, healthy session that handles no packet and a client that reads, some continuation writes every packet on its way and drops none |
| Tunnel.PacketArrives | src/server/server.cpp:318-340 | for every client and every packet for it some run routes and writes it |
| Tunnel.SessionsOfFleet | src/server/server.cpp:269-340 | every session in every run of the whole server is one to which this applies |
| Tunnel.NothingDeliveredTwice | src/server/server.cpp:318-340 | two clients less than 2^32 accepts apart never write the same packet, whatever each of them does |
| Uplink.RunInv | src/server/session.cpp:99-108 | every interleaving of the client's senders and transport with the session keeps the accounts of sent packets |
| Uplink.Delivery | src/server/session.cpp:99-108 | in every run what the server writes to its TUN is an in-order part of the packets the client's threads sent; each is written, met an unauthenticated session or is not read yet; all are written exactly if all have been read and none met an unauthenticated session |
| Uplink.PacketArrives | src/server/session.cpp:99-108 | for every accepted request and every packet some run writes the packet that follows the request to the server's TUN |

## Left out

- Asio, Beast, TLS, DNS, TCP and WebSocket internals: foreign code, reduced to the assumptions above.
- HMAC-SHA256, the random generator and JSON text: arbitrary functions; a failing HMAC or JSON printer is not modelled.
- TUN devices, poll loops, routes, DNS and firewall set-up, configuration files, logging and argument parsing.
- Session.ClientSession.HandlePacket: does not cover an auth request on which the loop hangs, because the original then never returns; the printed auth reply is taken to fit one frame, where the original throws out of the handler if configuration strings exceed 65535 bytes.
- Session.ClientSession.Start: installing the callbacks is not a state change of the model; what they do is `Session.ClientSession.Receive`, and the error callback only logs.
- Client.Client.SendAuth: the printed auth request is taken to fit one frame, where src/client/client.cpp:133 throws; user and token of more than 65 kilobytes are not modelled.
- Client.Client.Stop: that a halted executor starts no more handlers is not used; the runs of `Lifecycle`, `Handshake` and `Tunnel` let handlers run after it and so include those in which none does.
- Client.Client.TunReadLoop: the packets the device yields are a parameter; polling and read errors count as yielding nothing, and a loop that another thread ends early counts as one over fewer packets.
- Session.ClientSession.Receive: like HandlePacket it does not cover a message on which the loop hangs.
- In `Tunnel` the session may meet any events at all, and in `Uplink` the client's threads may send any messages; that a client sends one auth request before its packets is `Handshake.HandshakeSafety`.
- On the client, reads of `ws_` and `tun_` by the TUN thread are atomic here, and the two-party lemmas speak of the first connection.
- A session object whose id is reused after 2^32 accepts is destroyed by the original while its transport may live on; the model keeps it alive.
- Locks on the server's maps: routing and registration are atomic with respect to the maps; the send that follows a lookup is not.
- `ip_version`, `ip4_protocol`, `ip4_src` and the macOS packet prefix: they would add only easy members.
- In `Strand` a packet enters as what it means to the session; which bytes mean what is `Session.EventOf` and `Protocol.DispatchIff`.
- Limits on clients, keepalive and session time-outs: no code enforces them.
- The three transport classes are one class with two kinds of gate, since their writers are textually the same; logging differs.
