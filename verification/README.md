# A verified model of the man-in-the-middle fuzzer

The repository puts a fuzzing proxy between the containers of a topology. The *commander* rewrites
the configuration and generates iptables rules, the *proxy* forwards and mutates datagrams, and a
pair of *launchers* starts the processes and restarts everything after a crash. The proofs cover the
parts with shared state, arithmetic or a protocol, and the way these parts fit together:

| file | subject |
|---|---|
| `FuzzerCore.dfy` | the payload transformations, on arrays from an allocator that may fail at any call, with an arbitrary mutator |
| `ProxyMachine.dfy` | one UDP connection as a state machine: four threads, the shared queue of source ports, the network and both endpoints |
| `ProxyTheorems.dfy`, `ProxyReplies.dfy`, `ProxyLimits.dfy` | what holds in every interleaving, and what fails without which assumption |
| `ProxyExchanges.dfy` | exactly which behaviour of a fixed endpoint keeps the queue of ports from running dry |
| `UdpHandlers.dfy` | the objects of the proxy: the socket tables, the queue, one pass through each thread's loop |
| `Topology.dfy`, `PortNormalizer.dfy`, `Redirections.dfy`, `Commander.dfy` | configuration records, port completion, connection injection, and the order in which the commander runs them |
| `Injected.dfy` | the injected lists, stated on the entries of the configuration file |
| `DnatRules.dfy`, `EndToEnd.dfy` | the rules generated for an entity, and the path of a packet from the rule table to its destination |
| `Framing.dfy` | `send_message` / `recv_message` over a byte stream that moves arbitrary pieces |
| `RestartProtocol.dfy`, `RestartTheorems.dfy` | launchers, monitors, crash reports and restart rounds as one state machine |
| `RestartProgress.dfy` | a round can always be finished |
| `RestartSettles.dfy`, `RestartLoop.dfy` | when a single crash can keep the launchers restarting |
| `Launchers.dfy` | the launchers' own loops, tied to the state machine and to the frames |

`Base.dfy` holds shared types.

## How it is modelled

**Runs.** Both state machines have an `Enabled`/`Apply` pair over atomic steps. A run is any list of
steps each of which is enabled where it is taken, so a theorem about `Run(...)` for every `Legal`
list is a theorem about every interleaving. A step is what a thread does between two accesses to
shared state; a section under the mutex is one step for the port queue and several for the restart
flag, where waiting and waking matter.

**Outside the model's control.** The mutator's output, allocation, `bind`, `getsockname`,
`pthread_create`, `fork`, `send` and `recv` are nondeterministic. Where a call may fail, the object
standing for the system counts failures, and the contracts say what a run without failure yields.
`random_port` picks any unused number of the range; since its loop would never end on a full range,
`Prepare` needs 4n + m <= 40001 for n connections and m TCP servers. Nothing is claimed about how
long the loop draws, nor that the launcher's own port 23927, which lies in the range, is avoided.

**Specification functions** say what an operation computes in terms of its inputs or its old state.
What each of them means is stated once more without it, on the entries of a configuration file, the
bytes of a payload or the fields of a connection: the lemmas whose names end in `Exactly` or `Bytes`,
`SentIsReal`, `SocketsBound` and `AddressesAgree`.

**Assumptions about endpoints** are named: `Answering(d)` and `InOrder(d, via)` in
`ProxyMachine.dfy`. Behind each result that uses one stands an exact condition that needs none
(`SafeExactly`, `ReplyPortExactly`, `OneDynamicSideExactly`), and `ProxyLimits.dfy` shows for every
connection and every non-empty datagram what happens without the assumption. Whatever arrives at the
socket of a thread counts as sent by that thread's endpoint: the code never compares the source
address of a datagram with the endpoint's, so a third party's packet is forwarded, and its port
stored, like the endpoint's own. "A port that side sent from" is to be read in that sense. The
restart machine assumes that a client's address and START are under way before a round that includes
it begins to send, that pids are never reused, and that one `send_message` is not interleaved with
another on the same socket.

## What the proofs say about the code

- `FuzzerCore` promises every output a length between minimum and maximum. It keeps the promise
  except when no fuzz could be produced and the copied input is itself out of range (`LengthPromise`).
- The last branch of `runRadamsaExpanded` is never entered: a successful `runRadamsa` has already
  been normalised. The model has `assert false` there.
- A repeated input that is empty is repeated for ever: `runRadamsaExpanded` does not return exactly
  when its input is empty, `runRadamsa` returned nothing and the block for the repetition is granted
  (`FillCyclic`, `RunRadamsaExpanded`; the outcome is `Endless`). The UDP threads never pass an empty
  input, the TCP loop may.
- A pop on an empty queue in a receive thread leaves -1, and the datagram goes to port 65535. With one
  dynamic side it is the fixed endpoint that decides: as long as it has never sent more packets than
  the dynamic side's receive thread has delivered to it, no schedule, loss or reordering empties the
  queue; as soon as it has, some schedule does (`SafeExactly`), and not a single packet may be sent
  ahead (`NothingAhead`). In particular an unsolicited packet starves the queue, and so does the
  answer to a packet that reached the socket of a send thread, because send threads do not store
  source ports.
- Popped ports all belong to a dynamic side exactly if the other side is fixed
  (`OneDynamicSideExactly`).
- The n-th packet to ask for a port gets the n-th stored one, whichever thread asks and whatever the
  order of replies; it reaches a request's sender exactly if that port is the request's
  (`ReplyPortExactly`).
- A DNAT rule for a dynamic peer has no port condition and takes every packet to that IP.
  `RoutedExactly` says when a packet nevertheless reaches its fixed destination.
- The generator does not treat the two ends of a connection alike: a B end with a dynamic port
  matches every entity port, an A end does not. With one entity per IP the B end's condition holds
  exactly when the listed port and the entity's own agree (`DestinationSelected`).
- If `getsockname` fails for the socket that sends to A, its send thread is told "from B".
- A zero-length datagram ends the thread that receives it and closes its socket; only that and a failed
  recvfrom do (`EndsExactly`, `EmptyDatagramEnds`). It never sends again (`ClosedForGood`).
- Answers sent to the proxy's own socket are read exactly if the connection has a dynamic side; with
  two fixed ports no thread reads them (`AnswerPath`).
- Restarting need not settle: the SIGKILL that stops a healthy process makes its monitor report
  CRASH. Rounds stay within the processes that died of their own accord exactly if all clients
  together run at most one entity; with two, one real crash suffices for any number of rounds
  (`SettlesExactly`, `OneCrashManyRounds`). In general each round is paid for by a process that died
  of its own accord or by SIGKILL (`RoundsNeedDeaths`).
- A process that is alive outside a stop is listed exactly when it has not been sent SIGKILL; death
  by SIGKILL takes time, so "alive and unlisted" is possible for a process already signalled.
- A proxy that fails to relaunch ends the server launcher at the next round.

## Model

| member | source | states |
|---|---|---|
| `FuzzerCore.Fuzzer.FillCyclic` | proxy/src/Fuzzer.cpp:249-263 | the fill loop ends exactly if the source is not empty, and then byte i is source byte i mod length |
| `FuzzerCore.Fuzzer.NormalizeOutputSize` | proxy/src/Fuzzer.cpp:230-278 | returns the normal form in a fresh block, or null and no new block when the one allocation failed |
| `FuzzerCore.Fuzzer.RunRadamsa` | proxy/src/Fuzzer.cpp:83-143 | one mutator run, normalised; its temporary block is always released |
| `FuzzerCore.Fuzzer.RunRadamsaExpanded` | proxy/src/Fuzzer.cpp:154-220 | whether the mutator returned a block and whether the next allocation was granted decide the outcome: the mutated bytes, the repeated input, nothing, or for an empty input no return; never enters its last branch, releases everything but its result |
| `FuzzerCore.OutcomeExactly` | proxy/src/Fuzzer.cpp:159-190 | what the mutator wrote is used whenever it wrote something and both blocks were granted, the input is repeated when it wrote nothing, and only a refused block leaves no fuzz |
| `FuzzerCore.FuzzBytesExactly` | proxy/src/Fuzzer.cpp:136-142 | byte i of the contribution is byte i mod length of what the mutator wrote, which is all there unless repeated up to the minimum; or of the input, to exactly that length |
| `FuzzerCore.Fuzzer.PostFuzzing` | proxy/src/Fuzzer.cpp:287-326 | live blocks afterwards are those before plus the result; the bytes are `Post` of what the mutation step contributed; null, with size 0, exactly if an allocation after that step failed |
| `FuzzerCore.Fuzzer.PreFuzzing` | proxy/src/Fuzzer.cpp:335-374 | the same with the fuzz in front |
| `FuzzerCore.Fuzzer.FullFuzzing` | proxy/src/Fuzzer.cpp:383-448 | the same with fuzz on both sides, each of which may be missing |
| `FuzzerCore.Fuzzer.Combine` | proxy/src/Fuzzer.cpp:414-448 | both fuzz blocks are released whether or not the combined block could be allocated |
| `FuzzerCore.Fuzzer.ForwardPayload` | proxy/src/UDPHandler.cpp:185-205 | the payload is the fuzzed datagram cut to 65499 bytes, empty only after a failure; nothing leaks |
| `FuzzerCore.NormalInRange` | proxy/src/Fuzzer.cpp:222-229 | every non-empty input lands in [MIN, MAX] and keeps its bytes cyclically; unchanged exactly if already in range |
| `FuzzerCore.NormalIdempotent` | proxy/src/Fuzzer.cpp:182-190 | normalising a second time changes nothing |
| `FuzzerCore.PostClosedForm` | proxy/src/Fuzzer.cpp:280-286 | input ++ fuzz cut to MAX, in range; starts with the whole input exactly if that fits |
| `FuzzerCore.PostBytes` | proxy/src/Fuzzer.cpp:280-286 | byte by byte: the input, then what the mutator wrote over and over, or the input over and over; up to the maximum |
| `FuzzerCore.PreClosedForm` | proxy/src/Fuzzer.cpp:328-334 | fuzz ++ input cut to MAX, in range; keeps all of the input exactly if fuzz and input fit |
| `FuzzerCore.PreBytes` | proxy/src/Fuzzer.cpp:328-334 | the same with the fuzz in front |
| `FuzzerCore.FullClosedForm` | proxy/src/Fuzzer.cpp:376-382 | fuzz1 ++ input ++ fuzz2 cut to MAX, in range; with one fuzz missing it is the post or pre form |
| `FuzzerCore.FullBytes` | proxy/src/Fuzzer.cpp:376-382 | the same with the input between two such parts |
| `FuzzerCore.LengthPromise` | proxy/src/Fuzzer.cpp:10-13 | the promised length range holds exactly unless no fuzz was produced for an input out of range |
| `FuzzerCore.ForwardedPayload` | proxy/src/UDPHandler.cpp:194-196 | a datagram of 1 to 4096 bytes leaves as itself or as exactly 65499 bytes starting with it; repeated cyclically when the mutator failed |
| `FuzzerCore.InFigures` | proxy/inc/Fuzzer.hpp:10-12 | the limits are 409600 and 40960000 bytes, and a payload cut to size has 65499 |
| `ProxyTheorems.QueueHistory` | proxy/inc/UDPConnection.hpp:54-70 | in every interleaving popped ++ queue = pushed, in order |
| `ProxyTheorems.ProvenanceHolds` | proxy/src/UDPHandler.cpp:139-205 | everything a thread sends stems from a datagram its own endpoint sent, goes to the other endpoint's IP, and to its fixed port, a popped port or the documented fallback |
| `ProxyTheorems.SentIsReal` | proxy/src/UDPHandler.cpp:132-197 | every transmission stems from a non-empty datagram of the thread's own endpoint, whole up to 4096 bytes, is empty, that, or 65499 bytes beginning with it, and goes to the other endpoint's address and fixed port |
| `ProxyTheorems.OneDynamicSide` | proxy/src/UDPHandler.cpp:155-176 | with one dynamic side every popped port is one that side really sent from |
| `ProxyTheorems.FixedSourcePort` | proxy/src/UDPHandler.cpp:155-176 | if it always sends from one port, every pop yields that port |
| `ProxyExchanges.SafeExactly` | proxy/src/UDPHandler.cpp:155-176 | for every sequence of packets the fixed endpoint gets and sends: no run with it finds the queue empty if and only if it never has sent more than it has got |
| `ProxyExchanges.NothingAhead` | proxy/src/UDPHandler.cpp:155-176 | sending up to k packets ahead is safe if and only if k is 0 |
| `ProxyTheorems.FundedHolds` | proxy/src/UDPHandler.cpp:155-198 | when the fixed side only answers, every packet that may still cause a pop is paid for by a stored port |
| `ProxyTheorems.NoStarvation` | proxy/src/UDPHandler.cpp:270-282 | when the fixed side only answers, no pop finds the queue empty and everything forwarded to the dynamic side goes to a port it sent from |
| `ProxyTheorems.EndsExactly` | proxy/src/UDPHandler.cpp:139-143 | a thread has ended if and only if its recvfrom failed or returned an empty datagram |
| `ProxyTheorems.ClosedForGood` | proxy/src/UDPHandler.cpp:141-143 | nothing revives it, and it never sends again |
| `ProxyReplies.ReplyPortExactly` | proxy/src/UDPHandler.cpp:162-176 | without any order and in both threads: the packet that was n-th to ask for a port goes to the n-th stored one, so to a request if and only if that is its port |
| `ProxyReplies.TurnsDiffer` | proxy/inc/UDPConnection.hpp:60-70 | no stored port is given to two packets |
| `ProxyReplies.AlignedHolds` | proxy/src/UDPHandler.cpp:162-176 | with in-order answers the stored requests line up with those still on their way to a reply |
| `ProxyReplies.RepliesReachTheirRequests` | proxy/src/UDPHandler.cpp:270-287 | with in-order answers to one socket the k-th reply leaves for the source port of the request it answers, the k-th stored |
| `ProxyLimits.FirstPacket` | proxy/src/UDPHandler.cpp:159-165 | a receive thread can be made to forward to any port whatever if its target is dynamic |
| `ProxyLimits.UnsolicitedPacketStarves` | proxy/src/UDPHandler.cpp:169-172 | for every connection, any non-empty first packet to a dynamic side finds the queue empty, in either thread |
| `ProxyLimits.AnswerToSendThreadStarves` | proxy/src/UDPHandler.cpp:250-268 | any non-empty request arriving at a send thread's socket is forwarded without its port being stored, and any answer to it finds the queue empty |
| `ProxyLimits.OvertakingMisroutes` | proxy/src/UDPHandler.cpp:276-282 | any two requests answered in the opposite order get each other's answers |
| `ProxyLimits.BothDynamicMixesPorts` | proxy/src/UDPHandler.cpp:159-165 | on every connection with two dynamic sides a port of one is used as a port of the other |
| `ProxyLimits.OneDynamicSideExactly` | proxy/src/UDPHandler.cpp:159-176 | in every run the popped ports are those of a dynamic side if and only if the other side is fixed |
| `ProxyLimits.EmptyDatagramEnds` | proxy/src/UDPHandler.cpp:139-143 | one empty datagram ends any thread |
| `UdpHandlers.UdpConnection.PopDynamicPort` | proxy/inc/UDPConnection.hpp:60-70 | takes the oldest port; on an empty queue reports it and leaves the caller's variable alone |
| `UdpHandlers.UdpConnection.ReceiveBody` | proxy/src/UDPHandler.cpp:151-205 | one pass of a receive thread: pop before push, and the socket, address, port and payload for the other side, in the connection's fields; this `Performs` what the machine does |
| `UdpHandlers.UdpConnection.SendBody` | proxy/src/UDPHandler.cpp:246-315 | one pass of a send thread likewise, through the receive socket of the other side, without a push and with the source-port fallback |
| `UdpHandlers.FuzzedExactly` | proxy/src/UDPHandler.cpp:185-197 | if nothing fails the payload is 65499 bytes: the datagram, then what the mutator wrote, or the datagram, over and over |
| `UdpHandlers.PassIsFourSteps` | proxy/src/UDPHandler.cpp:151-205 | such a pass equals the machine's choose, store, mutate and transmit steps: same queue, same transmission, nothing else |
| `UdpHandlers.Os.CreateAndBindSocket` | proxy/src/UDPHandler.cpp:26-58 | a fresh descriptor bound to the port, or -1 and nothing new |
| `UdpHandlers.UdpHandler.BuildFromConnections` | proxy/src/UDPHandler.cpp:60-96 | appends exactly the connections whose four sockets were bound, in order, and keeps the tables valid; all of them if nothing failed |
| `UdpHandlers.SelectedExactly` | proxy/src/UDPHandler.cpp:72-94 | the connections kept are those with four bound sockets, each at the place given by the number of those before it |
| `UdpHandlers.UdpHandler.AddConnection` | proxy/src/UDPHandler.cpp:65-94 | one more connection, or unchanged tables and at least one failure |
| `UdpHandlers.UdpHandler.Register` | proxy/src/UDPHandler.cpp:78-90 | four unlisted sockets enter lists and map without disturbing the others |
| `UdpHandlers.UdpHandler.SocketsBound` | proxy/src/UDPHandler.cpp:67-76 | each of a connection's four sockets is bound to the matching proxy port |
| `UdpHandlers.UdpHandler.TableIsExact` | proxy/src/UDPHandler.cpp:78-90 | each listed socket maps to the one connection holding it in the matching field; no socket is listed twice, in one list or across both |
| `UdpHandlers.UdpHandler.StartRecvThreads` | proxy/src/UDPHandler.cpp:98-121 | every thread reads a receive socket of the connection it is given, so its "not recognized" branch is dead; only failures cost threads |
| `UdpHandlers.UdpHandler.StartSendThread` | proxy/src/UDPHandler.cpp:328-363 | with distinct send ports a thread is told "from A" exactly for the socket that sends to A, unless getsockname failed |
| `UdpHandlers.UdpHandler.StartSendThreads` | proxy/src/UDPHandler.cpp:323-367 | this for every send socket of a connection with a dynamic side, and no thread for the others |
| `PortNormalizer.ConfigFile.NormalizeUdpPorts` | commander/config_loader.py:33-55 | both passes in place compute `Normalized` |
| `PortNormalizer.NormalizedExactly` | commander/config_loader.py:33-55 | an entity that is not UDP is unchanged; of a UDP one a missing port becomes -1, a destination with a port is unchanged, one without gets the port of the last UDP entity with its IP, if any, and nothing else changes |
| `PortNormalizer.PortsCompleted` | commander/config_loader.py:40-54 | every UDP entity gets a port; a destination stays without one exactly if it had none and no UDP entity has its IP |
| `PortNormalizer.OmittedPortIsEntityPort` | commander/config_loader.py:40-54 | with one entity per IP an omitted destination port becomes that entity's port |
| `PortNormalizer.OmittedPortIsLast` | commander/config_loader.py:33-45 | in general exactly if the last UDP entity with the IP has the same port |
| `PortNormalizer.NormalizedIdempotent` | commander/config_loader.py:33-60 | normalising the saved file again changes nothing |
| `Redirections.KeyIsUndirected` | commander/redirection_injector.py:42-46 | two pairs have the same sorted key exactly if they are equal or reversed |
| `Redirections.RandomPort` | commander/redirection_injector.py:21-26 | an unused port of the range |
| `Redirections.InjectFuzzerRedirections` | commander/redirection_injector.py:6-70 | no fuzzer, a missing port key, or a list with one connection per new pair on distinct ports, written into the first fuzzer and nowhere else |
| `Redirections.CollectConnections` | commander/redirection_injector.py:28-59 | the loops over entities and destinations produce the pairs in order of first appearance |
| `Injected.OutcomesExactly` | commander/redirection_injector.py:10-40 | when injection finds no fuzzer, or misses a port, and which entity it writes to |
| `Injected.LinksExactly` | commander/redirection_injector.py:31-40 | the links are the listings of all entities but the fuzzer, in order |
| `Injected.OpeningExactly` | commander/redirection_injector.py:42-46 | those that open a connection are the first to join their two endpoints, in order |
| `Injected.ConnectionsExactly` | commander/redirection_injector.py:48-59 | every connection is some entity's listing with that entity as A, and every listing is joined by exactly one connection |
| `Injected.PortsInFigures` | commander/redirection_injector.py:21-26 | each connection has four different ports from 20000 to 60000, of which there are 40001 |
| `Redirections.InjectTcpRedirections` | commander/redirection_injector.py:75-139 | one redirection per distinct TCP server on a port no connection uses |
| `Injected.ServersExactly` | commander/redirection_injector.py:109-124 | the servers are the addresses of the entities with role server, protocol tcp, an IP and a port other than -1, each once, in order of first appearance |
| `Redirections.OneConnectionPerPair` | commander/redirection_injector.py:42-46 | connections correspond one-to-one with the undirected pairs listed |
| `Redirections.DirectionIrrelevant` | commander/redirection_injector.py:42-46 | the pairs connected do not depend on which end lists the other nor how often |
| `Redirections.OrderIrrelevant` | commander/redirection_injector.py:31-46 | entities in another order, with their destinations in another order, give connections for the same pairs |
| `Redirections.PermutationIrrelevant` | commander/redirection_injector.py:31-46 | in particular any permutation of the entities |
| `Redirections.MutualListing` | commander/config_loader.py:51-54 | two UDP entities that list each other without ports share exactly one connection |
| `Redirections.MutualListingAlone` | commander/redirection_injector.py:42-59 | and if nothing else is listed it is the only one |
| `Redirections.AllPortsDistinct` | commander/redirection_injector.py:88-104 | the 4n UDP and m TCP proxy ports are pairwise distinct and in [20000, 60000] |
| `Commander.Prepare` | commander/main.py:16-19 | the three steps in order give `Prepared`, or stop where the code raises or exits |
| `DnatRules.GenerateUdpDnatRules` | commander/docker_build.py:13-44 | the rule list of an entity, connection by connection, side A before side B |
| `DnatRules.RulesExactly` | commander/docker_build.py:16-39 | per connection and side whose conditions hold, a redirection to that side's receive port and an acceptance of its send port |
| `DnatRules.BothRules` | commander/docker_build.py:18-39 | an entity on either side of a listed connection has both rules for it |
| `DnatRules.GenerateEntryPoint` | commander/docker_build.py:97-110 | rules are written for fuzzed UDP entities other than the fuzzer, from the first fuzzer's connections |
| `DnatRules.EntryRulesExactly` | commander/docker_build.py:97-110 | no rules for the fuzzer, an entity that is not fuzzed, a protocol other than udp, or without injected connections; otherwise the list for the entity's IP and port |
| `DnatRules.Redirected` | commander/docker_build.py:16-39 | a packet is redirected exactly if some connection can carry it, and then to the receive port of the first that can |
| `DnatRules.FirstCarrierIs` | commander/docker_build.py:16-39 | that connection can carry the packet and none before it can |
| `DnatRules.DynamicPeerShadows` | commander/docker_build.py:20 | a dynamic peer listed first takes every packet to its IP |
| `EndToEnd.ThreadForwards` | proxy/src/UDPHandler.cpp:155-173 | whatever happens, a thread sends only to the other endpoint of its connection |
| `EndToEnd.ForwardsExactly` | proxy/src/UDPHandler.cpp:155-173 | a receive thread serves a fixed endpoint alone exactly if that is the other end of its connection |
| `EndToEnd.RoutedExactly` | commander/docker_build.py:16-39 | a packet to a fixed endpoint reaches a thread serving that endpoint alone exactly if the first connection that can carry it ends at that port |
| `EndToEnd.DestinationReached` | commander/docker_build.py:18-24 | with unambiguous peers a packet to a listed destination is redirected to a thread that forwards to it |
| `EndToEnd.DestinationSelected` | commander/docker_build.py:30 | the listed entity gets rules for the connection exactly if the two ports under which it appears agree |
| `EndToEnd.SourceReached` | commander/docker_build.py:30-36 | then its packets back to the listing entity are forwarded to that entity |
| `EndToEnd.OmittedPortAgrees` | commander/config_loader.py:51-54 | normalisation makes the two ports agree for a destination listed without one |
| `EndToEnd.SocketOfRule` | proxy/src/UDPHandler.cpp:67-90 | a rule's target port is bound by one listed socket, the receive socket of that side of that connection |
| `EndToEnd.AddressesAgree` | proxy/src/UDPHandler.cpp:252-271 | an entity's rules redirect to the port of the socket its answers are sent from, and accept packets from the port of the socket forwarded packets are sent from |
| `EndToEnd.RequestPath` | commander/main.py:16-26 | from the commander's output and the built proxy: a fuzzed entity's packet arrives at one socket and leaves only for its destination; if that connection could not be set up, nobody listens there |
| `EndToEnd.ReplyPath` | commander/main.py:16-26 | the same for the packets of a fuzzed entity back to one that lists it, under an agreeing port |
| `EndToEnd.PreparedPair` | commander/config_loader.py:51-54 | what that asks of the configuration holds for a destination listed without a port |
| `EndToEnd.AnswerPath` | proxy/src/UDPHandler.cpp:328-363 | starting the thread for the socket a receive thread sends from: without a failure it is read by a thread that forwards back if and only if the connection has a dynamic side |
| `EndToEnd.StartUdp` | proxy/src/ProxyBase.cpp:35-37 | on ports as the commander draws them the handler is built and started: tables valid, every thread rightly wired and labelled, all of them if nothing failed |
| `Framing.PrefixInverse` | luncher/client/src/Client.cpp:158-164 | encoding and decoding the 64-bit length undo each other, both ways |
| `Framing.LengthBytes` | luncher/client/src/Client.cpp:158-170 | the length is eight bytes, the least significant first |
| `Framing.FrameExactly` | luncher/client/src/Client.cpp:172-183 | below 2 GiB the whole message follows; beyond, what its length is as an int |
| `Framing.ParseExactly` | luncher/client/src/Client.cpp:196-223 | refused are fewer than eight bytes, a length over 4096 and an incomplete body; otherwise the message is what follows the length |
| `Framing.FrameRoundTrip` | luncher/client/src/Client.cpp:154-224 | a frame followed by anything is parsed to its message, leaving what follows |
| `Framing.ParsedWasFrame` | luncher/client/src/Client.cpp:188-224 | whatever is accepted was the frame of the message returned |
| `Framing.FramesRoundTrip` | luncher/client/src/Client.cpp:154-224 | any list of messages of at most 4096 bytes is received as sent, up to a frame boundary |
| `Framing.FramesAppend` | luncher/client/src/Client.cpp:154-186 | sending one more message appends one more frame |
| `Framing.Stream.SendMessage` | luncher/server/src/Server.cpp:109-141 | whatever pieces send accepts, exactly the frame is put on the stream; on an error a prefix of it |
| `Framing.Stream.SendAll` | luncher/server/src/Server.cpp:118-125 | the sending loop puts exactly its buffer on the stream |
| `Framing.Stream.RecvMessage` | luncher/server/src/Server.cpp:143-179 | whatever pieces arrive, it returns what `Parse` says, and -1 for an oversize or unfinished frame |
| `Framing.Stream.RecvAll` | luncher/server/src/Server.cpp:151-158 | the receiving loop fills exactly the requested bytes |
| `Framing.PrefixParses` | luncher/client/src/Client.cpp:188-224 | at any moment of sending and receiving, the complete frames among the bytes received give exactly the first messages sent |
| `Framing.ReceiveMessages` | luncher/client/src/Client.cpp:141-152 | successive calls return the sent messages in order and stop at the frame boundary |
| `Framing.Exchange` | luncher/client/src/Client.cpp:154-224 | a list of messages sent by one end is what the other receives, unless the stream breaks |
| `RestartTheorems.NoCrashLost` | luncher/server/src/Server.cpp:272-291 | at every step the flag is up exactly if a recorded crash is later than the last end of a round; until a round lowers it the message is RESTART, so the mutex is always released; no round runs with the flag down, so a spurious wakeup starts none; each round end directly follows a recorded crash |
| `RestartTheorems.FlagHolds` | luncher/server/src/Server.cpp:58-64 | mutex ownership and flag stay consistent at every step of handlers and main loop |
| `RestartTheorems.ProcessListExact` | luncher/client/src/Client.cpp:89-139 | at most one listed process per entity, all of the current generation; every earlier process was sent SIGKILL or had exited; a live process is listed exactly if not signalled |
| `RestartTheorems.CrashConservation` | luncher/client/src/Client.cpp:68-110 | every launched pid has one monitor: blocked, about to report, or reported once; reports split into in flight, in hand and recorded |
| `RestartTheorems.RoundsBounded` | luncher/server/src/Server.cpp:272-290 | rounds never outnumber recorded crashes, nor those the launches of all clients |
| `RestartProgress.RoundCanEnd` | luncher/server/src/Server.cpp:272-291 | from every reachable state with the flag up and the proxy launched, the mutex holder and the main loop alone can end one more round |
| `RestartTheorems.EveryRoundReachesEveryClient` | luncher/server/src/Server.cpp:283-286 | outside a round each client has been sent one RESTART per round that ended since it joined |
| `RestartSettles.RoundsNeedDeaths` | luncher/client/src/Client.cpp:81-84 | rounds never outnumber the processes that died of their own accord or were sent SIGKILL |
| `RestartSettles.SingleEntitySettles` | luncher/client/src/Client.cpp:121-139 | with at most one entity in all no live process is ever signalled, and rounds never outnumber own deaths |
| `RestartLoop.OneCrashManyRounds` | luncher/client/src/Client.cpp:81-84 | for any clients with two or more entities between them and every n, a state after n rounds is reachable in which one process died of its own accord |
| `RestartLoop.SettlesExactly` | luncher/client/src/Client.cpp:81-139 | rounds stay within own deaths in every run if and only if all clients together run at most one entity |
| `Launchers.OrderRoundTrip` | luncher/client/src/Client.cpp:129-135 | START, sent without its zero byte, and RESTART, sent with it, are both recognised |
| `Launchers.BytesAreWords` | luncher/server/src/Server.cpp:41 | the bytes sent are those of the words |
| `Launchers.OrderOfExactly` | luncher/client/src/Client.cpp:131-134 | a buffer is taken for an order if and only if it begins with that word and a zero |
| `Launchers.OrdersArrive` | luncher/client/src/Client.cpp:141-152 | a framed list of orders arrives as the same list of orders |
| `Launchers.ClientLauncher.StopProcesses` | luncher/client/src/Client.cpp:121-127 | the loop over the list computes `StopAll` |
| `Launchers.ClientLauncher.StartEntities` | luncher/client/src/Client.cpp:89-110 | the loop over the entities computes `StartAll`, one attempt per entity |
| `Launchers.ClientLauncher.MultiplexMessage` | luncher/client/src/Client.cpp:129-139 | START starts, RESTART stops and starts, anything else changes nothing |
| `Launchers.StopAllReaches` | luncher/client/src/Client.cpp:121-127 | stopping signals every listed live process and no other, empties the list, and changes nothing else |
| `Launchers.StartAllLaunches` | luncher/client/src/Client.cpp:97-109 | starting lists, starts and watches one process per entity that could be launched, in entity order |
| `Launchers.RestartSteps` | luncher/client/src/Client.cpp:134-138 | the state machine's steps for one RESTART, uninterrupted, end where the method does |
| `Launchers.ServerLauncher.Greet` | luncher/server/src/Server.cpp:50-51 | a new client gets the frames of its address and of START |
| `Launchers.ServerLauncher.RecordCrash` | luncher/server/src/Server.cpp:58-64 | the critical section takes the launcher from the machine's Naming to its Releasing |
| `Launchers.ServerLauncher.Round` | luncher/server/src/Server.cpp:279-290 | proxy signalled and relaunched, one RESTART frame to every client, flag and message cleared: what the machine's round does; the process ends only after a failed send or an earlier failed launch |
| `Launchers.RoundSteps` | luncher/server/src/Server.cpp:279-290 | that round is the n + 5 steps of the machine's main loop for n clients |

## Left out

- TCP forwarding (`TCPConnection.cpp`, `TCPHandler.cpp`, the rest of `ProxyBase.cpp`) and the TCP rule generator: a lookup and thin wiring.
- `guidedFuzzing` and `pass`: straight copies.
- Radamsa's arguments, pipes and process handling; a blocking write of a large input to the mutator.
- YAML, files, Docker commands and Dockerfile text; rule lists stand for the script lines, comment lines are dropped.
- Upper-case protocol names (`lower()`), an explicit null port, and malformed configurations other than a missing port key.
- `ConfigurationManager` and `ExecutionManager`: field copying and argument lists.
- `addNewClient` and the client list behind `send_client_ip`.
- The client descriptor passed by address to its handler thread: assumed read before the next accept.
- `client_fd_list` growing while a round iterates over it: a client joins before or after the sending loop.
- Disconnects: a -1 from `recv_message` in the launchers' loops, and the body of an oversize frame left on the stream.
- Failing thread creation in the launchers, reuse of descriptors after a thread closed its socket, reuse of pids.
- Endianness: the length prefix is modelled as little-endian at both ends.
- Liveness: a round can always be finished (`RoundCanEnd`), but no claim that it eventually is, nor that a message is eventually delivered.
- Logging, flusher threads and sleeps; the random choices' probabilities.
- FuzzerCore.Fuzzer.NormalizeOutputSize: requires a non-empty input, which all its callers guarantee.
- ProxyTheorems.OneDynamicSide: with both sides dynamic only `QueueHistory` holds, as `OneDynamicSideExactly` says.
- EndToEnd.RequestPath: the packet is followed to the thread that receives it and to the target of everything that thread sends; that it is not lost on the way is not claimed.
