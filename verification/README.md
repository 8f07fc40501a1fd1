# A verified model of the Teredo core

This project models, in Dafny 4.11, the Teredo implementation of miredo (`miredo/libteredo`) and the hash and checksum
kernels of aiccu, and proves what they are for: that two clients behind NATs reach each other, that a client reaches
native nodes, that it obtains the address RFC 4380 prescribes, that payload goes only where an authenticated peer
answered from, that the peer list stays a sound structure under every operation, that no router advertisement is lost
between threads, and that the fast kernels compute MD5, SHA-1 and the Internet checksum.

`dafny verify dfyconfig.toml` checks everything.  The files, bottom up:

| file | contents |
|---|---|
| `Net.dfy` | bytes, words in network order, Teredo addresses, IPv6 headers, which addresses count as global |
| `Pieces.dfy` | data handed over in pieces |
| `Checksum.dfy` | `in_cksum`, `teredo_cksum` and aiccu's late-folding form against one definition of the Internet checksum |
| `Streaming.dfy` | what a block hash keeps between updates: chaining value, buffered tail, two-word length |
| `Md5.dfy` | MD5 as in RFC 1321; the bit-counting and the byte-counting implementation; their agreement |
| `Sha1.dfy` | SHA-1 as in RFC 3174; the in-place ring implementation |
| `Security.dfy`, `Probing.dfy` | HMAC-MD5, nonces, ping hashes; the probe round trip |
| `Codec.dfy` | UDP encapsulation: optional authentication, optional origin, IPv6 packet |
| `Packets.dfy`, `Advert.dfy` | bubbles, pings, router solicitations and advertisements |
| `Server.dfy`, `Qualification.dfy` | the server's decision; client and server together |
| `PeerCache.dfy`, `PeerList.dfy` | the peer list as a value and its runs; the linked structure that refines it |
| `Peers.dfy` | one peer: queue, counters, rate limits |
| `Relay.dfy`, `RelayLaws.dfy`, `RelayRuns.dfy` | the packet steps; what every step keeps; every run |
| `Sending.dfy`, `Receiving.dfy` | what every transmission and every reception must do, both ways |
| `OneEntry.dfy`, `QueueRuns.dfy`, `Rates.dfy` | a step concerns one peer; every queue, and the rates of what is sent, in every run |
| `TunnelObject.dfy` | the same steps as an object over the linked list and its lock |
| `Listing.dfy` | the peer list over the runs of a tunnel |
| `HolePunch.dfy` | two tunnels and a server, datagram by datagram |
| `DirectTest.dfy` | a client, its server and a native node, datagram by datagram |
| `Maintenance.dfy`, `ClientRuns.dfy` | the qualification and maintenance loop; loop and tunnel interleaved |
| `Joining.dfy` | client, server and maintenance loop together; an MTU that stays behind |
| `Handoff.dfy`, `Intake.dfy` | the two mutexes and two condition variables between receive threads and the maintenance thread; what a turn hears through them |

## How to read it

A network byte is an integer below 256, and 16- and 32-bit fields are tuples of bytes in network order, so a host
byte order appears (as `ByteOrder`) only where the code depends on one.  Hash kernels use bit vectors.

A freshly allocated peer has fields without a value.  They are `Unset`, and reading one is a precondition that has
to be proved: no step of any run reads an unset field (`RelayRuns.EveryRun`).

Clocks, memory exhaustion, failing sends, the resolver, random flags and the contents of uninitialised memory are
inputs (`Io`, `Turn`, `leftover`, `stale`).  Invariants hold whatever they are; that an exchange completes assumes that
memory is available and that datagrams are sent and arrive (`HolePunch.FirstContact`).  Datagrams, deliveries, errors
and notifications are outputs (`Out`).  Keyed hashes are parameters of the relay steps (`Env`), instantiated in
`Probing.dfy`.

`Peer.log` and the last fields of `Handoff.State` are history: they are written along and never decide anything.  The
log keeps, with the packet that vouched for a mapping, the wall clock, mode and place on the local network the tunnel
had when it arrived.

Length bounds in preconditions come from the parameter types of the source: `md5_append` takes a signed length, and
`MD5Update` and `SHA1_Update` an unsigned 32-bit one, each less what its own index arithmetic would overflow with.

## Where the code does less than it or its documentation suggests

The model follows the code.

- The list of non-global IPv4 blocks announces 192.88.99.0/24 and the code tests 192.88.98.0/24
  (`Net.GlobalUnicastDeviation` gives the exact set of addresses concerned).
- The prefix check is documented to refuse ff00::/8 but masks a network-order field as a host number
  (`Net.ValidPrefixDeviation`).  In consequence a server and a client of different byte order may disagree on a
  prefix, and qualification completes exactly if the client's host accepts it (`Qualification.MixedOrderMayFail`).
- The advertisement parser succeeds without any prefix option (`Advert.ParserNeedsNoPrefix`), and then returns what
  the candidate held (`Advert.ParserIgnoresLeftovers` says exactly when it does not); only its caller's comparison of
  the server address restores the promise (`Advert.AcceptedAdvert`).
- An advertisement that the caller rejects may already have set the MTU (`Joining.RejectedMtuStays`);
  `Maintenance.MtuIsOwnExactly` says exactly when the accepted MTU is the accepted advertisement's own.  It is always
  in range, and acceptance and the accepted address do not depend on leftovers.
- The server bounds the payload length in the header of what it forwards, but forwards what follows the packet too
  (`Server.TrailingBytesForwarded`, `Server.ForwardedSize`).

## Model

| member | source | states |
|---|---|---|
| HolePunch.HolePunchCompletes | miredo/libteredo/relay.c:435-578 | A transmits to an unlisted client B; the server named in B's address forwards the indirect bubble; B answers; the answer reaches A from any UDP source while A exchanges any amount of traffic with others. Every datagram decodes to what was sent; A first sends exactly the direct bubble, unless it has the cone flag, and the bubble to B's server, and no payload, none to B in any intervening step, and in the last step just the queued packet, to the source of the answer, where it then trusts B |
| HolePunch.Opens | miredo/libteredo/relay.c:435-578 | the first transmission leaves B untrusted with the packet queued and emits exactly the direct bubble, if A has no cone flag and B's mapping is global, and then the bubble to B's server |
| HolePunch.CannotOpen | miredo/libteredo/relay.c:556-568 | if the direct bubble cannot be sent nothing is, the caller learns it, and the packet waits |
| HolePunch.Relayed | miredo/libteredo/server.c:291-447 | both bubbles survive encapsulation, and the server forwards the first to B's mapping behind an origin header naming A |
| HolePunch.Replies | miredo/libteredo/relay.c:690-716 | B answers an indirect bubble to its origin, and changes nothing |
| HolePunch.Completes | miredo/libteredo/relay.c:877-926 | a bubble carrying A's nonce makes A trust its sender at the actual source and flushes the queue there |
| HolePunch.MeanwhileKeeps | miredo/libteredo/relay.c:343-987 | any sequence of transmissions to and receptions from other addresses keeps B's entry, the state and all laws |
| HolePunch.NothingForB | miredo/libteredo/relay.c:343-987 | no step of the unrelated traffic sends payload to B, which is not trusted yet |
| OneEntry.TxOnlyAt | miredo/libteredo/relay.c:343-578 | a transmission touches, adds and removes no entry but its destination's |
| OneEntry.RxOnlyAt | miredo/libteredo/relay.c:757-987 | a reception touches, adds and removes no entry but its source's |
| HolePunch.AssumptionsCanBeMet | miredo/libteredo/relay.c:1026-1067 | a relay just created, a server, a qualified client and the empty interval between the two steps satisfy everything the hole punching theorem assumes |
| DirectTest.TestCompletes | miredo/libteredo/relay.c:470-496 | a client transmits to an unlisted native node; exactly one datagram goes out, the test to its server, which sends it on unchanged; the node's echo reply or unreachable error reaches the client from any relay while it talks to others. The client trusts the node there if and only if fewer than thirty seconds passed on the wrapping clock, and then sends just the queued packet there; otherwise nothing goes to the node |
| DirectTest.Tests | miredo/libteredo/relay.c:470-496 | the first transmission to a native node emits the test alone and leaves the node untrusted with the packet queued |
| DirectTest.TestLeaves | miredo/libteredo/server.c:435-442 | a test sent from the mapping in its source address decodes at the server and leaves it unchanged |
| DirectTest.Decides | miredo/libteredo/relay.c:862-869 | an ICMPv6 packet of a listed untrusted node makes it trusted at the actual source if and only if it passes as an answer; otherwise it waits and no payload is sent |
| DirectTest.AssumptionsCanBeMet | miredo/libteredo/relay.c:470-496 | a qualified client, its server and a native node satisfy everything the theorem assumes |
| PeerList.PeerList.Lookup | miredo/libteredo/peerlist.c:359-481 | find, create and every failure refine the cache model; links, back-links, index and counter stay sound; the lock is held on return exactly if an entry is returned |
| PeerList.PeerList.Promote | miredo/libteredo/peerlist.c:416-435 | moving a hit to the head of the recent list, whichever list it was on, is a touch of the model |
| PeerList.PeerList.Unlink | miredo/libteredo/peerlist.c:418-422 | writing through the back-pointer removes exactly this entry from exactly its list |
| PeerList.PeerList.PushFront | miredo/libteredo/peerlist.c:424-430 | the entry becomes the head of the recent list, all back-links right |
| PeerList.PeerList.Threaded | miredo/libteredo/peerlist.c:410-433 | what the source asserts: the back-pointer leads to a pointer to the entry, and the successor's back-pointer is the entry's own link |
| PeerList.PeerList.Enter | miredo/libteredo/peerlist.c:445-476 | a miss either fills the prepared place of the index and takes one unit of capacity, or leaves no trace |
| PeerList.PeerList.CollectGarbage | miredo/libteredo/peerlist.c:228-278 | one pass of the collector is the model's collection, releases the lock, and frees exactly the entries of the old list, each once, none of them still linked |
| PeerList.PeerList.Purge | miredo/libteredo/peerlist.c:242-257 | the walk over the old list finds every key in the index, deletes exactly those and gives their capacity back |
| PeerList.PeerList.Destroy | miredo/libteredo/peerlist.c:197-205 | each entry of the chain is freed once, and read only before that |
| PeerList.PeerList.Reset | miredo/libteredo/peerlist.c:313-344 | an empty list of the new capacity; all former entries are freed, each once |
| PeerList.PeerList.Change | miredo/libteredo/peerlist.h:66-80 | writing to a looked-up entry changes that entry of the model and nothing else |
| PeerList.PeerList.ModelValid | miredo/libteredo/peerlist.c:164-178 | the linked structure stands for a valid cache: index equals recent plus old, nothing listed twice, places add up |
| PeerList.Splice | miredo/libteredo/peerlist.c:418-422 | repairing the two pointers around an entry leaves a well-linked chain without it |
| PeerCache.RunSound | miredo/libteredo/peerlist.c:228-481 | after every run of lookups, creations, failed creations, collections and resets the index maps exactly the listed keys, no key is listed twice, and left plus both lists equals the capacity |
| PeerCache.CollectorSparesUsed | miredo/libteredo/peerlist.h:98-107 | in every run, an entry removed by a collection was last looked up at least one expiration delay before |
| PeerCache.GoneAfterTwoCollections | miredo/libteredo/peerlist.h:98-107 | an entry nobody looks up across two collections is gone, whatever else happens |
| Listing.EveryRunListed | miredo/libteredo/peerlist.c:359-462 | in every run of a tunnel index and generations agree, and entries and free places make 1024 |
| Listing.UsedSurvives | miredo/libteredo/peerlist.c:228-277 | in every run: an entry whose packet a transmission admitted, or from which a reception took a packet, survives the collection that follows, unchanged |
| Listing.IdleGone | miredo/libteredo/peerlist.c:228-277 | in every run: an entry that no packet was about between two collections is gone after the second |
| Listing.EventUses | miredo/libteredo/relay.c:343-987 | a packet event moves the entry it concerns to the head of the recent generation, and no other |
| PeerCache.LookupValid | miredo/libteredo/peerlist.c:359-481 | every outcome of a lookup keeps the structure |
| RelayRuns.EveryRun | miredo/libteredo/relay.c:343-987 | in every reachable state no step reads an unset field, a local peer exists only while a discovery object does, every law holds of every peer, and what was emitted respects the trust rule |
| RelayRuns.TrustHasASource | miredo/libteredo/relay.c:779-926 | a trusted peer's mapping is the UDP source of a packet that an earlier event of this run received from that peer, and that passed the ping test at that event's wall clock in client mode, the address match, the bubble nonce, or the locality test, alone or as a discovery bubble, with the address, netmask and interfaces the tunnel had at that event |
| QueueRuns.QueuesConserved | miredo/libteredo/relay.c:343-987 | in every run the queue of every peer is the outcome of one operation per event, each accounted for by that event: its own packet offered and not passed on as well, a flush to the source of a received packet that is then trusted, or the loss of the entry. What left the queue is exactly what these operations emit, and everything accepted is waiting, was lost, or was emitted once with its batch in reverse order of arrival |
| QueueRuns.StepDeals | miredo/libteredo/relay.c:343-987 | one event's dealings with the queue of any one peer, and what of its output concerns that peer: for the packet's own peer control datagrams, then what left the queue, then at most the packet itself and only if it was not queued; for other peers nothing |
| QueueRuns.FromServes | miredo/libteredo/relay.c:757-987 | a reception flushes, fills or leaves the queue of the packet's source, and its output is control traffic, the flushed queue, and at most the packet, in this order; a packet that is queued is not delivered |
| RelayRuns.RatesHold | miredo/libteredo/relay.c:239-312 | in every run, the grants on record since their reset: bubbles more than 2 s apart, any five spanning more than 300 s, at most four pings more than 2 s apart, counters at most 4, queue budget exact |
| Rates.RatesObserved | miredo/libteredo/relay.c:239-312 | in every run, of the events that sent bubbles because of one peer since its count last started afresh any two are more than 2 s apart and any five span more than 300 s; of those that sent it a ping there are at most four, any two more than 2 s apart |
| Rates.StepTracks | miredo/libteredo/relay.c:343-987 | every event that sends bubbles or a ping because of a peer is on its record with the time of the event |
| Rates.OnlyThePeerRestarts | miredo/libteredo/relay.c:609-616 | while an entry persists, nothing but a packet from the peer itself starts its counts afresh |
| RelayRuns.TransmitDisposes | miredo/libteredo/relay.c:343-578 | a transmitted packet is sent alone to the mapping of a trusted peer, or joins the head of that destination's queue, or neither; an error comes alone and quotes the packet |
| Sending.PayloadExact | miredo/libteredo/relay.c:323-448 | for every input: the packet is sent if and only if it passes the state tests, its destination is listed, trusted and heard of during the last 30 s (600 s if local), and the datagram can be sent; it then goes alone to the trusted mapping and the entry notes the time |
| Sending.ConnectExact | miredo/libteredo/relay.c:466-578 | a ping or bubble leaves if and only if the packet passes the state tests, its peer can be listed but is not current, and one is due by its counter and clock; which datagrams then leave, to where and in which order, is fixed for native, local and other Teredo peers and for every combination of failing sends |
| Sending.WaitingExact | miredo/libteredo/relay.c:435-552 | exactly such a packet is offered to its queue; trust, mapping and locality do not change, and a new peer starts untrusted at the advertised mapping or at none |
| Sending.ErrorExact | miredo/libteredo/relay.c:366-578 | an unreachable error with a code is reported if and only if state, addresses or exhausted attempts call for that code and the limiter has one left; it comes alone and quotes the packet |
| Sending.ErrorsExact | miredo/libteredo/relay.c:121-153 | in every run: an error that is called for is reported if and only if fewer than ten were reported at that clock reading, fewer than one at reading zero |
| Sending.ResultExact | miredo/libteredo/relay.c:437-578 | the caller is told of failure if and only if the peer cannot be listed or the packet or a bubble over the Internet cannot be sent |
| Sending.NothingElse | miredo/libteredo/relay.c:343-578 | whatever a transmission emits is the payload, a ping or bubbles, or an error |
| Receiving.TrustExact | miredo/libteredo/relay.c:841-925 | for every considered unicast packet: afterwards its source is trusted where the packet came from if and only if it was already, or answers a test, or is a Teredo source that is listed or can be and is where its address says, or where it was found locally, or new and nearby, or returns our nonce. Then the queue is flushed there, counters restart, and the packet cut at its announced length is delivered unless it is a test's answer or a bubble of a source just accepted; a Teredo source refused changes nothing |
| Receiving.NativeExact | miredo/libteredo/relay.c:926-979 | a native source that nothing vouches for: the packet joins its queue, trust does not change, and a test is sent if and only if one is due and can be |
| Receiving.DiscoveryExact | miredo/libteredo/relay.c:781-811 | a local announcement lists its source as local where it came from, trusted no more than before, and is answered if and only if a bubble is due or the source was not known to be local |
| Receiving.MulticastExact | miredo/libteredo/relay.c:833-841 | other group destinations change no entry |
| Receiving.IgnoredExact | miredo/libteredo/relay.c:645-750 | malformed packets, maintenance packets, packets while down, answered bubbles, link-local sources of clients and native sources of relays change nothing; the answer to what came through the server is fixed, the guessed origin included |
| RelayRuns.ErrorsBounded | miredo/libteredo/relay.c:121-153 | in every run at most ten unreachable errors are emitted at any one clock reading |
| RelayRuns.StepKeeps | miredo/libteredo/relay.c:343-987 | no event of any kind breaks a law |
| RelayRuns.ChangeKeeps | miredo/libteredo/relay.c:179-233 | a state change keeps the laws; coming up leaves no peer, announces the new address and MTU, and leaves a discovery object if and only if discovery is configured and starts; going down leaves list and discovery as they were and is announced if the tunnel was up |
| RelayRuns.Configured | miredo/libteredo/relay.c:1146-1190 | a relay takes any valid prefix and the cone flag asked for, keeping the other flag bits; clients refuse both |
| RelayRuns.TransmitConsults | miredo/libteredo/relay.c:121-153 | a transmission consults the error limiter at most once and reports an error only with its consent |
| RelayLaws.TransmitKeeps | miredo/libteredo/relay.c:343-578 | a transmission keeps every law; the only payload it may send is the packet itself, to a trusted mapping |
| RelayLaws.ReceiveKeeps | miredo/libteredo/relay.c:634-987 | a reception keeps every law; it delivers and sends only what the trusted mapping entitles it to |
| RelayLaws.JudgeVouches | miredo/libteredo/relay.c:877-892 | whenever the tests of a Teredo source succeed there is a voucher: this reception, with its own circumstances, or the one behind the existing mapping, whose source it then shares |
| RelayLaws.DiscoveryKeeps | miredo/libteredo/relay.c:779-810 | a local discovery bubble keeps every law and leads to control traffic only |
| RelayLaws.NativeKeeps | miredo/libteredo/relay.c:930-977 | an untrusted native node's packet is filed under its own source; nothing is delivered |
| RelayLaws.TeredoKeeps | miredo/libteredo/relay.c:873-926 | accepting or refusing a Teredo source keeps every law |
| RelayLaws.EmitOk | miredo/libteredo/peerlist.c:137-155 | a flushed queue sends and delivers only towards and from the trusted mapping |
| TunnelObject.Tunnel.TransmitPacket | miredo/libteredo/relay.c:343-578 | the imperative transmission over the linked list equals the step of the model on every path and returns with the list released |
| TunnelObject.Tunnel.ReceivePacket | miredo/libteredo/relay.c:634-987 | so does reception, with both lookups and every early return |
| TunnelObject.Tunnel.ChangeState | miredo/libteredo/relay.c:179-233 | so does the callback; coming up frees every former entry |
| TunnelObject.Tunnel.SendUnreach | miredo/libteredo/relay.c:121-153 | the two tests and the decrement of the limiter report an error exactly when the model's limiter consents, and at most ten stay at most ten at every clock reading, whatever was reported before |
| TunnelObject.Tunnel.TakeKnown | miredo/libteredo/relay.c:843-871 | cases 1 and 2: taken exactly if trusted at this source or a valid ping reply, and then delivered, or used to trust |
| TunnelObject.Tunnel.TakeTeredo | miredo/libteredo/relay.c:873-926 | cases 3 and 5: one release on every path, equal to the model's step |
| TunnelObject.Tunnel.TakeNative | miredo/libteredo/relay.c:930-977 | case 6: one release on every path, equal to the model's step |
| TunnelObject.Tunnel.TakeDiscovery | miredo/libteredo/relay.c:779-810 | case 4: one release on every path, equal to the model's step |
| TunnelObject.Tunnel.CheckLocal | miredo/libteredo/relay.c:586-606 | true exactly for a same-prefix source on the same external network that a local interface covers |
| TunnelObject.CountBubbles | miredo/libteredo/relay.c:276-312 | the nested tests equal the bubble rule whose law `Peers.CountBubbleLaw` states |
| TunnelObject.CountPings | miredo/libteredo/relay.c:239-262 | the nested tests equal the ping rule whose law `Peers.CountPingLaw` states |
| Relay.ScanInterfaces | miredo/libteredo/discovery.c:74-83 | finds a match exactly if some interface's network contains the address |
| Peers.QueueConservation | miredo/libteredo/peerlist.c:92-155 | after any operations on a queue: budget plus queued bytes is 1280; the queue is what waits, in reverse order of arrival; every packet accepted left in exactly one batch or waits, in order of arrival; and what was emitted is the flushed batches, each reversed, each once |
| Peers.QueueEmit | miredo/libteredo/peerlist.c:137-155 | the walk over a queue emits outgoing packets to the mapping and incoming ones only if they came from it |
| Peers.Enqueue | miredo/libteredo/peerlist.c:92-111 | a packet goes to the head exactly if the queue with it stays within 1280 bytes, is dropped otherwise, the budget stays exact and no other field changes |
| Peers.Yield | miredo/libteredo/peerlist.c:128-134 | yielding empties the queue, restores the budget and changes no other field |
| Peers.CountBubbleLaw | miredo/libteredo/relay.c:276-312 | the counter law survives every decision, although transmissions move the timestamp it compares with |
| Peers.BubbleGranted | miredo/libteredo/relay.c:276-312 | a bubble is granted if and only if none was since the reset or the peer was last sent to more than 2 s ago, 300 s after every fourth; there is none to wait for exactly within 300 s of a fourth |
| Peers.PingGranted | miredo/libteredo/relay.c:239-264 | a ping is granted if and only if fewer than four were since the reset, the last more than 2 s ago |
| Peers.CountPingLaw | miredo/libteredo/relay.c:239-262 | the ping law survives every decision |
| Peers.BubbleRates | miredo/libteredo/relay.c:276-312 | consecutive bubbles more than 2 s apart, any five spanning more than 300 s, the counter within its three bits |
| Maintenance.EveryRun | miredo/libteredo/maintain.c:241-400 | in every run: up implies a resolved server, an MTU in 1280..65535 and a valid prefix; a resolved server is global and in the published address; flags within 0x3cff; retry count below the limit |
| Maintenance.OutageExact | miredo/libteredo/maintain.c:330-355 | while up, a turn goes down if and only if it completes the configured number of solicitations unanswered since the last accepted advertisement; it then announces just that and forgets the server |
| Maintenance.RefreshIsQuiet | miredo/libteredo/maintain.c:359-386 | a refresh announces nothing if and only if mapping, server, prefix and MTU are those in use, and then keeps the random flags |
| Maintenance.AdvertisedExact | miredo/libteredo/maintain.c:355-386 | an accepted advertisement is published, up or not: address, MTU, local address; flags drawn anew if and only if the address is new; announced if and only if the client was down or something changed |
| Maintenance.RandomBits | miredo/libteredo/maintain.c:361-368 | the flags are the bits 3cff of the random ones |
| Maintenance.ResolvesFirst | miredo/libteredo/maintain.c:263-298 | the first resolver answer that is a global address becomes the server and is announced; without one nothing changes |
| Maintenance.ServerKept | miredo/libteredo/maintain.c:330-353 | in every run: a server is kept until connectivity is lost, and forgotten then; silence while down announces nothing |
| Maintenance.StepSound | miredo/libteredo/maintain.c:241-400 | each turn keeps the invariant and announces the state it leaves |
| Maintenance.ListenBounds | miredo/libteredo/maintain.c:308-328 | what ends the wait names the solicited server with clear flags, and has an MTU in range |
| Maintenance.ListenMtu | miredo/libteredo/maintain.c:308-328 | which arrival ends the wait, all earlier ones being rejected, and its MTU: the last one written by an arrival that parsed and announced one, rejected ones included, else the default |
| Maintenance.MtuIsOwnExactly | miredo/libteredo/maintain.c:148-151 | the MTU is the accepted advertisement's own, or the default if it has none, if and only if it has the option or the last earlier arrival that wrote an MTU, if any, wrote the default |
| Joining.RejectedMtuStays | miredo/libteredo/packets.c:274-278 | an input on which it is not: an advertisement of another server is rejected, the next one without MTU option is accepted, with the MTU of the first |
| Maintenance.ListenIgnoresLeftovers | miredo/libteredo/maintain.c:308-328 | acceptance, address and local IPv4 do not depend on the uninitialised candidate |
| Maintenance.Thread.ResolveServer | miredo/libteredo/maintain.c:263-296 | the resolution loop announces the first global answer, and the assertion that the tunnel is down holds |
| Maintenance.Thread.Await | miredo/libteredo/maintain.c:313-328 | the waiting loop returns the first accepted advertisement, or silence |
| Maintenance.Thread.Update | miredo/libteredo/maintain.c:330-386 | the state machine update is the specified one |
| Maintenance.Thread.Loop | miredo/libteredo/maintain.c:260-396 | one turn equals the specified turn and keeps the invariant |
| Maintenance.Thread.constructor | miredo/libteredo/maintain.c:242-252 | the procedure starts down, without server, count zero |
| Joining.ComesUp | miredo/libteredo/maintain.c:263-386 | the whole join, with a server resolved before or in this very turn: the solicitation decodes at the server, its answer decodes, and a turn that hears it, after any packets it rejects, publishes the prescribed address and the server's MTU and resets the count; a client that was down announces the resolution, if it happened now, and then that state |
| Joining.FirstJoin | miredo/libteredo/maintain.c:242-386 | from the start of the procedure: one turn resolves the server, announces it while down, and announces the prescribed address |
| Joining.FirstAddress | miredo/libteredo/relay.c:179-233 | the same turn driving the tunnel: its user gets exactly one notification, with the prescribed address and the server's MTU, and discovery starts with that address if and only if it is configured and can start |
| ClientRuns.EveryRun | miredo/libteredo/relay.c:179-233 | in every interleaving of maintenance turns, traffic and calls: all peer laws hold, trust having come from receptions of this run; from the first callback on, the tunnel's state is the maintenance state; the last notification is up, with the maintenance state's address and MTU, if and only if that is up; down is never notified first, nor twice without an up between; local discovery announces the address notified last |
| ClientRuns.TrafficKeepsState | miredo/libteredo/relay.c:343-987 | traffic and configuration calls neither change a client's state nor notify |
| ClientRuns.OnlyTransmissionsReportErrors | miredo/libteredo/relay.c:121-153 | no event but a transmission emits an unreachable error |
| ClientRuns.ReceivePlain | miredo/libteredo/relay.c:634-987 | a reception emits datagrams and deliveries only |
| Handoff.ConsumedExactlyOnce | miredo/libteredo/maintain.c:494-525 | under every interleaving, timeout and spurious wake-up: a packet is pending only while its owner, alone behind the outer mutex, is inside the call; packets are consumed in posting order, each once, before their call returns |
| Handoff.NeverOverwritten | miredo/libteredo/maintain.c:494-525 | the pointer is null whenever a thread sets it |
| Handoff.NeverStuck | miredo/libteredo/maintain.c:163-192 | as long as a thread is inside the call some thread can move without timeout, spurious wake-up or further call: no wake-up is lost |
| Handoff.EveryRun | miredo/libteredo/maintain.c:163-192 | mutual exclusion, ownership of the pending packet and accounting of calls hold in every reachable state |
| Handoff.StepInv | miredo/libteredo/maintain.c:313-328 | every single move keeps them |
| Intake.HearsWhatIsPosted | miredo/libteredo/maintain.c:313-328 | under every interleaving, what a waiting turn has heard is what listening to the packets consumed since it began yields, and these are consecutive postings, each consumed once |
| Qualification.QualificationCompletes | miredo/libteredo/packets.c:164-278 | for every source the server answers: the solicitation decodes, the server answers that source, the answer decodes and is for maintenance, and a client resolved to this server accepts it if and only if its host accepts the normalised prefix, obtaining exactly the prescribed address and the server's MTU |
| Qualification.QualifiedAddress | miredo/libteredo/packets.c:256-278 | the prescribed address: normalised prefix, server, clear flags, and a client part that matches the observed source and no other |
| Qualification.ServerAnswers | miredo/libteredo/server.c:340-393 | the server answers every solicitation from a global source other than its own sockets |
| Qualification.AnswerDecodes | miredo/libteredo/server.c:77-159 | the answer decodes into the nonce, the observed source and the advertisement |
| Qualification.SolicitationDecodes | miredo/libteredo/packets.c:125-161 | the solicitation decodes into its nonce and the solicitation packet |
| Qualification.ClientAccepts | miredo/libteredo/maintain.c:131-156 | acceptance of the server's advertisement holds if and only if the normalised prefix is valid on the client's host |
| Qualification.SameOrderQualifies | miredo/libteredo/server.c:487-571 | with a configuration the server accepts and equal byte order, acceptance is unconditional |
| Qualification.MixedOrderMayFail | miredo/libteredo/teredo.h:107-108 | a configuration that a big-endian server accepts and a little-endian client refuses |
| Qualification.SolicitChecksum | miredo/libteredo/packets.c:125-161 | the precomputed checksum of the solicitation verifies |
| Qualification.AdvertChecksum | miredo/libteredo/server.c:77-159 | the checksum of every advertisement verifies |
| Server.ForwardingExact | miredo/libteredo/server.c:291-447 | a packet is forwarded if and only if it is a bubble or short ICMPv6 message from a global source, other than the server's two sockets, that owns its Teredo address or writes to one of the server's clients, to a global same-prefix destination with a global mapping; it goes to that mapping, and decodes into the packet as it arrived and, exactly for the server's own clients, the sender's endpoint |
| Server.DecisionExact | miredo/libteredo/server.c:291-447 | every other outcome: a packet enters the IPv6 Internet if and only if it is a bubble or ICMPv6 of at most 88 bytes from a global source, not the server itself, that owns its Teredo address, to a global destination outside the prefix, cut at its announced length; an advertisement answers exactly the solicitations of such sources and of link-local ones, to the source, from the other socket for a cone address; the rest is discarded, or fails for a mapping that is not global |
| Server.ForwardedSize | miredo/libteredo/server.c:165-199 | the forwarded datagram has the size that the bounded header length announces if and only if nothing follows the packet |
| Server.TrailingBytesForwarded | miredo/libteredo/server.c:195-196 | an input on which it has not: whatever follows a bubble is forwarded with it |
| Advert.OptionLoop | miredo/libteredo/packets.c:199-253 | the option loop terminates with every read in bounds and computes the specified walk |
| Advert.PrefixProvenance | miredo/libteredo/packets.c:199-253 | a server address found by the walk comes, with its prefix, from one 64-bit prefix option of the same advertisement |
| Advert.AcceptedAdvert | miredo/libteredo/maintain.c:131-156 | an accepted advertisement has our nonce, no failure, prefix and server from one of its own options, the client part from its origin, clear flags and an MTU in range |
| Advert.AcceptanceExact | miredo/libteredo/maintain.c:131-156 | an advertisement is accepted if and only if nonce, origin, destination, type and length fit, all options are in order, and the last prefix option names the solicited server with a valid prefix |
| Advert.WalkExact | miredo/libteredo/packets.c:199-251 | the option loop succeeds if and only if the options can be listed, prefix options are long enough and 64 bits, MTUs lie in 1280 to 65535, and no prefix option follows one that names a server |
| Advert.AcceptanceIgnoresLeftovers | miredo/libteredo/maintain.c:131-156 | acceptance and the accepted address do not depend on what the candidate held |
| Advert.ParserNeedsNoPrefix | miredo/libteredo/packets.c:164-278 | an advertisement without prefix option that the parser accepts, returning whatever valid prefix the candidate held |
| Advert.ParsedFrom | miredo/libteredo/packets.c:164-278 | a successful parse returns prefix and server of the advertisement's last prefix option, or without one the leftover prefix and no server |
| Advert.ParserIgnoresLeftovers | miredo/libteredo/packets.c:164-278 | prefix and server of a successful parse do not depend on the leftover candidate if and only if the advertisement has a prefix option |
| Advert.MtuWritten | miredo/libteredo/packets.c:272-278 | the MTU after a packet is the one it announces if it answers our solicitation, parses and announces one, else the one before |
| Advert.WalkBounds | miredo/libteredo/packets.c:199-253 | the walk touches prefix and server only and leaves an absent or valid MTU |
| Codec.RecvInner | miredo/libteredo/teredo.c:236-302 | the in-place decoder equals the decoding of the received bytes alone |
| Codec.AcceptedSplits | miredo/libteredo/teredo.c:236-302 | whatever is accepted splits into authentication, origin and packet |
| Codec.SplitsAccepted | miredo/libteredo/teredo.c:236-302 | whatever splits that way is accepted, as that frame |
| Codec.RoundTrip | miredo/libteredo/server.c:165-199 | decoding inverts the senders' framing |
| Packets.AnswersAuthenticate | miredo/libteredo/packets.c:281-397 | an echo reply or a quoting unreachable error passes the check if and only if the hash of the ping verifies at that time |
| Packets.Icmp6Verifies | miredo/libteredo/teredo.c:382-403 | every ICMPv6 message built carries a checksum that verifies |
| Packets.ErrorQuotes | miredo/libteredo/packets.c:402-438 | an error is built exactly for packets that are no ICMPv6 error, not multicast and have a usable source; it quotes the packet from its beginning, all of it exactly if it has at most 1232 bytes, and fits the minimum MTU |
| Packets.BubbleSource | miredo/libteredo/packets.c:85-118 | the bubble's source is link-local and not multicast, whatever the nonce |
| Probing.ProbeRoundTrip | miredo/libteredo/security.c:180-223 | with the keyed hashes, either answer authenticates if and only if it is checked within thirty seconds of sending, on a clock that wraps at 32 bits |
| Security.ProbeWindow | miredo/libteredo/security.c:180-223 | a ping hash of time t verifies at time n if and only if (n - t) mod 2^32 < 30 |
| Security.TeredoHash | miredo/libteredo/security.c:125-143 | with precomputed pads and seven appends: HMAC-MD5 of the concatenated fields |
| Net.GlobalUnicastDeviation | miredo/libteredo/v4global.c:32-75 | the code agrees with its documented block list exactly outside 192.88.98.0/24 and 192.88.99.0/24 |
| Net.ValidPrefixDeviation | miredo/libteredo/teredo.h:107-108 | the prefix check keeps its promise exactly on big-endian hosts or when first and last byte agree about 0xff; with a counterexample |
| Checksum.InCksum | miredo/libteredo/teredo.c:338-379 | for any buffers, however odd their lengths: the Internet checksum of their concatenation |
| Checksum.FoldCongruent | miredo/libteredo/teredo.c:338-379 | the folded sum is congruent to the word sum modulo 65535 |
| Checksum.FoldUnique | miredo/libteredo/teredo.c:338-379 | and it is the only such value up to 0xffff that is zero just for a zero sum |
| Checksum.ByteOrderIndependence | miredo/libteredo/teredo.c:338-379 | either host byte order stores the same two bytes |
| Checksum.ChecksumVerifies | miredo/libteredo/teredo.c:382-403 | written into a zeroed word at an even offset, it makes a recomputation yield zero |
| Checksum.TeredoCksum | miredo/libteredo/teredo.c:382-403 | the Internet checksum over the IPv6 pseudo-header and the data |
| Checksum.InChkSum | aiccu/tun.c:84-101 | accumulating first and folding later gives the same sum, within the 32 bits of the accumulator |
| Checksum.WrapAndComplement | aiccu/tun.c:104-133 | the final folds and complement, with zero replaced |
| Checksum.Ipv6Checksum | aiccu/tun.c:104-133 | agrees with the Internet checksum on little-endian hosts, except that 0 becomes 0xffff |
| Md5Agreement.DigestBoth | miredo/libteredo/md5.c:337-396 | for every message and any two chunkings, both implementations give the RFC 1321 digest |
| LibteredoMd5.DigestParts | miredo/libteredo/md5.c:327-396 | any chunking gives the RFC 1321 digest of the concatenation |
| LibteredoMd5.Process | miredo/libteredo/md5.c:146-325 | the unrolled rounds are the compression function of RFC 1321 |
| LibteredoMd5.ScriptIsStandard | miredo/libteredo/md5.c:79-143 | the literal table of words, shifts and constants is the standard's |
| LibteredoMd5.State.Append | miredo/libteredo/md5.c:337-373 | appending appends: chaining value, buffer and bit count all stand for the longer message |
| LibteredoMd5.State.Finish | miredo/libteredo/md5.c:375-396 | padding and length give the digest of everything appended, extra block included |
| AiccuMd5.Transform | aiccu/hash_md5.c:158-240 | the rewritten rounds are the compression function of RFC 1321 |
| AiccuMd5.FastAuxIsAux | aiccu/hash_md5.c:141-151 | the rewritten auxiliary functions equal the standard's |
| AiccuMd5.Context.Update | aiccu/hash_md5.c:65-99 | appending appends, byte count with carry included |
| AiccuMd5.Context.Final | aiccu/hash_md5.c:105-137 | padding by memset and length by shifts give the digest, extra block included |
| AiccuMd5.HighWord | aiccu/hash_md5.c:127-129 | shifting and or-ing the two byte counters gives the high word of the bit count |
| AiccuSha1.DigestChunks | aiccu/hash_sha1.c:104-166 | any chunking gives the RFC 3174 digest of the concatenation |
| AiccuSha1.Transform | aiccu/hash_sha1.c:59-100 | the in-place block transform equals the 80-word method of RFC 3174 on either byte order and leaves the memory before and after the block alone |
| AiccuSha1.Rounds80 | aiccu/hash_sha1.c:72-91 | eighty rounds with rotated register roles over a 16-word ring are eighty standard steps |
| AiccuSha1.Blk | aiccu/hash_sha1.c:36-43 | one ring update yields the next word of the 80-word schedule and keeps the ring |
| AiccuSha1.FastLogicIsLogic | aiccu/hash_sha1.c:46-50 | the rewritten round functions equal the standard's |
| AiccuSha1.Context.Update | aiccu/hash_sha1.c:115-139 | appending appends, carry of the bit count included |
| AiccuSha1.Context.Final | aiccu/hash_sha1.c:142-166 | the byte-at-a-time padding loop runs fewer than 64 times and gives the digest of everything appended |

## Left out

- Sockets, poll, threads, DNS, syslog: inputs and outputs of the steps stand for them.
- Key generation and the process identifier: any key and identifier are parameters.
- Secure qualification (section 5.2.2 of RFC 4380): the code does not implement it.
- The cone-address branches, disabled code and the Judy variant of the index: not built; the tree is a finite map.
- Local discovery: reference counting of the discovery object and the timing of its thread; the list of interfaces it yields is an input.
- Delays: deadlines, the drift correction of the maintenance clock and the waits between turns are inputs of a turn, not computed.
- Stopping: cancellation and joining of threads.
- libtun6, privproc, relayd, serverd, TIC, heartbeat, AYIYA, gogoc and the user interfaces: operating-system plumbing and clients around library calls.
- TunnelObject.Tunnel.ReceivePacket: one packet at a time; it does not cover another thread between a first lookup and a second, nor the two places where the source still reads a peer after releasing the list (the discovery reply and the flush of a queue).
- TunnelObject.Tunnel.TransmitPacket: one packet at a time, like reception; datagrams are outputs, so a send that fails midway is an input flag.
- DirectTest.TestCompletes: no datagram of the exchange is lost, and the client collects no garbage and does not requalify in between; how the node's answer finds a relay is routing.
- HolePunch.HolePunchCompletes: no datagram of the exchange is lost, and A collects no garbage and does not requalify in between.
- PeerList.PeerList.CollectGarbage: the sleep between passes is the schedule of `PeerCache.Schedule`.
- Packets.ErrorQuotes: the step models report an error by naming its packet; the bytes handed over are those of `Packets.BuildError`, and for packets it does not answer an empty message is handed over, which counts against the limit.
- Rates.RatesObserved: replies to bubbles relayed by the server are not counted, as in the source, and the loss of an entry starts its counts afresh.
- Handoff.NeverStuck: safety only; that every call returns also needs a fair scheduler, which is not modelled.
