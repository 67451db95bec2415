# MouseVPN: a verified model

MouseVPN is a UDP VPN. This project models the parts of it that carry its guarantees and
proves what they promise, in Dafny 4.11: `dafny verify dfyconfig.toml` checks everything.

The model has four groups, each a few modules.

**The receive path.** `Replay` is the circular bitmap of 129 words that keeps a receiver from
accepting a datagram twice (the scheme of section 2 of RFC 6479); it refines the plain set of
all sequences ever accepted. `Protocol` and `Tunnel` are the datagram codecs and the two tunnel
halves. `Link` puts a sender, an arbitrary network and a receiver together and quantifies over
every run. The AEAD is ideal: a ledger records what was sealed under each nonce, and opening
succeeds only on the seal of a recorded plaintext.

**The server.** `Router` is the tag table that turns collisions into "ambiguous". `Registry`
and `Subnet` are device records, leases, shared revocation flags and address allocation.
`Sessions` is the two-index session table. `Server` runs administration, the UDP loop and the TUN
worker as threads over that state: a step is one critical section, one read of a flag or one
system call. `Revocation` follows packets through a revocation.

**Wire formats.** `Speedy` masks a header with a keyed function of the unmasked tail, `Morph`
wraps a datagram and random padding in an AEAD, and `Stack` composes them with the tunnel, the
MTU rules and the router. Keys, tags, masks and authentication codes are arbitrary functions of
their inputs with known output lengths; tags may collide.

**Accounting.** `RateLimit` limits handshakes, `Traffic` and `TrafficFlush` keep the hourly
history, `Liveness` and `ClientLoop` decide on keepalives and reconnects, `Cidr` computes the
complement of one host, and `Batch` frames packets for the native boundary.

Code that updates state is a class or a method with loops, proved against a specification
function or predicate; the laws are lemmas about the specification. Widths are explicit:
sequences and ids are below 2^64, addresses below 2^32, bit operations are defined digit by
digit, and saturating sums saturate.

## Where the code falls short of the expected law

* Delivery. "Whatever is sent, in the window and not delivered yet is delivered when it
  arrives" fails if the network relabels a datagram. The outer header is not authenticated and
  the window commits before the outer and inner kinds are compared, so a copy under the other
  kind uses the sequence up. `Link.RelabellingLosesAKeepalive` is a run; `Link.PromptIffNeverRelabelled`
  shows that the law holds in every state of a run if and only if no arrival relabels a fresh datagram.
* Forwarding for the current holder. A revocation, and even a new lease, can fall between the
  check of a packet and the moment it is written, sealed or sent, or begin before the check and
  end after it (`Revocation.LateSealReachesTheOldHolder`, `Revocation.CheckInsideARevocation`). At each of these
  moments the packet is handled for the device that holds the address, if and only if neither
  happened to it (`Revocation.HolderIffUndisturbed`, and over whole runs
  `Revocation.ForTheHolderIffNeverDisturbed`).
* Silence after a revocation. "Once a revocation has returned, the device's sessions forward
  nothing" fails for a packet that was already checked, which is still written or sealed, and for
  datagrams that were already sealed into the worker's batch, which are still sent
  (`Revocation.LateUplinkIsWritten`, `Revocation.LateSealReachesTheOldHolder`, `Revocation.LateBatchIsSent`).
  `Revocation.RevokedForwardsOnlyWhatWasHeld` says exactly what is still forwarded, over every
  continuation: at most one packet up and one batch of 32 down.
* Handshake cache. If a response cannot be masked, the session is replaced but the cached
  response is not, so a repeat is answered for the old session (`Server.StaleResponse`). The cached
  response belongs to the installed session if and only if the response of the latest install
  could be masked (`Server.RepeatIsHarmless`).
* First epoch. Epoch 0 is its own predecessor, so in the first epoch of a Morph profile, and of
  Speedy, every device contests its own tag (`Router.FirstEpochIsAmbiguous`). A device's current tag is
  routed if and only if nothing else collides with it and its epoch is neither the first nor the
  last that 64 bits count (`Router.OwnTagIsRouted`).

* Invisible flushes. A row sum beyond the signed 64-bit range makes SQLite turn to floating point,
  which the report cannot read (`Traffic.OverflowIsUnreadable`), and a single counter beyond it is
  stored cut off. A flush is invisible if and only if every row sum fits
  (`Traffic.FlushIsInvisible`, `Traffic.FlushIsInvisibleIffItFits`).

## Model

| member | source | states |
|---|---|---|
| Replay.ReplayWindow.constructor | crates/crypto/src/replay.rs:42-49 | a new window has accepted nothing |
| Replay.ReplayWindow.EnsureAcceptable | crates/crypto/src/replay.rs:61-75 | for every 64-bit sequence the bitmap answers exactly as a receiver that remembers the set of all accepted sequences: acceptable, duplicate or too old |
| Replay.VerdictExactly | crates/crypto/src/replay.rs:61-75 | too old exactly if a sequence 8192 or more ahead was accepted, else duplicate exactly if accepted before |
| Replay.ReplayWindow.MarkAuthenticated | crates/crypto/src/replay.rs:77-95 | marking a sequence that is not too old adds it to that set and nothing else, across ring wraps, jumps of any size and the oldest partial word |
| Replay.ReplayWindow.OpenUpTo | crates/crypto/src/replay.rs:78-90 | clearing the words between the old and the new highest keeps the ring in agreement with the set |
| Replay.OpenWord | crates/crypto/src/replay.rs:85-87 | clearing one slot opens the next word without losing any of the 128 words before it |
| Replay.ClearedRing | crates/crypto/src/replay.rs:82-83 | after a jump of 129 words or more an empty ring is right |
| Replay.MarkBit | crates/crypto/src/replay.rs:91 | setting one bit records one sequence and no alias of it |
| Replay.IndexInjective | crates/crypto/src/replay.rs:101-103 | words less than 129 apart never share a slot |
| Protocol.DecodeEncode | crates/protocol/src/header.rs:14-56 | every datagram with 16-bit flags decodes to itself after encoding |
| Protocol.EncodeDecode | crates/protocol/src/datagram.rs:16-34 | every input that decodes is the encoding of its result |
| Protocol.HeaderLayout | crates/protocol/src/header.rs:14-23 | each of the 20 header bytes: version 1, the kind's number, then flags, session id and sequence with the most significant byte first |
| Protocol.DecodesUnless | crates/protocol/src/header.rs:31-56 | an input fails to decode exactly if it is shorter than 20 bytes, of another version or of a kind outside 1 to 5 |
| Protocol.InnerLayout | crates/protocol/src/inner.rs:11-55 | one byte 1, 2 or 3 for the kind, then the payload, in both directions |
| Protocol.KindOf | crates/protocol/src/packet_kind.rs:13-26 | a kind byte decodes to the kind with that code, and fails only if there is none |
| Protocol.DecodeInner | crates/protocol/src/inner.rs:49-55 | a decoded inner packet encodes to its input |
| Protocol.ParsesExactly | crates/data-plane/src/ipv4.rs:20-43 | an input parses to a packet if and only if it starts with that packet and the packet's bytes say version 4, a header within it, and its length, source and destination, the most significant byte first |
| Protocol.ParseTrimmed | crates/data-plane/src/ipv4.rs:32-46 | parsing a packet trimmed to its total length gives the same packet and addresses |
| Tunnel.TunnelSender.EncodeInto | crates/data-plane/src/tunnel.rs:216-248 | produces the framed seal under the next sequence and advances it by one, or reports exhaustion or size and changes nothing |
| Tunnel.TunnelSender.EncodeIpInto | crates/data-plane/src/tunnel.rs:185-200 | seals the packet trimmed to its total length, or rejects invalid IP and packets above the MTU |
| Tunnel.TunnelSender.EncodeKeepaliveInto | crates/data-plane/src/tunnel.rs:207-214 | seals an empty keepalive under the next sequence |
| Tunnel.TunnelReceiver.DecodeInto | crates/data-plane/src/tunnel.rs:267-305 | with the bitmap window, decides and moves as the set-based receiver does: session, kind, size, replay, authentication, commit, contents; a packet is a slice of the output buffer |
| Tunnel.SealsExactly | crates/data-plane/src/tunnel.rs:216-248 | sealing fails exactly when sequences or the message size run out, and otherwise gives kind, session, sequence and the seal of the kind byte and payload |
| Tunnel.OutgoingExactly | crates/data-plane/src/tunnel.rs:185-200 | an IP packet goes out as data, trimmed, exactly if it parses and fits the MTU |
| Tunnel.CommitsExactly | crates/crypto/src/session.rs:167-184 | a sequence is used up exactly by a datagram of this session, kind and size that is new and was sealed under it |
| Tunnel.ReceivesExactly | crates/data-plane/src/tunnel.rs:267-305 | exactly which datagrams are delivered and as what, in terms of the plaintext's bytes |
| Link.AtMostOnceAndUnchanged | crates/data-plane/src/tunnel.rs:216-305 | over every run with loss, duplication, reordering, alteration and injection, each sealed packet is delivered at most once and byte for byte |
| Link.NoncesAreNeverReused | crates/data-plane/src/tunnel.rs:223-226 | over every run a nonce keeps the plaintext it was used for, and 2^64 - 1 is never used |
| Link.TransmittedIsGenuine | crates/data-plane/src/tunnel.rs:233-246 | what goes on the wire is the datagram of the nonce it was sealed under |
| Link.GenuineArrival | crates/crypto/src/session.rs:180-183 | a genuine datagram is delivered if and only if the set model finds its sequence acceptable, and otherwise changes nothing |
| Link.PromptIffNeverRelabelled | crates/data-plane/src/tunnel.rs:272-304 | everything sent, undelivered and in the window is delivered on arrival in every state of a run, if and only if no arrival relabels a fresh datagram |
| Link.RelabelledLoses | crates/data-plane/src/tunnel.rs:283-303 | a relabelled copy makes the sent datagram undeliverable |
| Link.NoneLostIsPrompt | crates/data-plane/src/tunnel.rs:283-298 | while every accepted sequence was delivered, prompt delivery holds |
| Link.RelabellingLosesAKeepalive | crates/data-plane/src/tunnel.rs:283-303 | a run of one keepalive, its relabelled copy and the keepalive delivers nothing |
| Router.MorphRouter.Refresh | crates/server/src/daemon.rs:260-328 | for every device set, clock, tag function, visiting order and cache, a successful refresh leaves the tables right for all claims; it succeeds if and only if every device with a Morph key has a Speedy key; cached secrets of other devices are gone |
| Router.MorphRouter.AddMorphRoutes | crates/server/src/daemon.rs:294-323 | makes the nine Morph claims of one device |
| Router.MorphRouter.AddSpeedyRoutes | crates/server/src/daemon.rs:348-360 | makes the three Speedy claims of one device |
| Router.MorphRouter.SpeedyCodec | crates/server/src/daemon.rs:335-347 | a cached Speedy key is the derived one |
| Router.MorphRouter.AddDevice | crates/server/src/daemon.rs:279-325 | makes all claims of one device, none if it has no Morph key, and fails if only the Speedy key is missing |
| Router.RoutedIffSoleClaim | crates/server/src/daemon.rs:306-321 | a tag is routed if and only if exactly one claim produces it, ambiguous if and only if two or more do, and in one table at most |
| Router.RightIsUnique | crates/server/src/daemon.rs:279-326 | the claims determine all three tables |
| Router.AddKeepsRight | crates/server/src/daemon.rs:306-321 | one more claim of either protocol, colliding or not, keeps the tables right |
| Router.FirstEpochIsAmbiguous | crates/morph/src/lib.rs:387-389 | during the first epoch of a profile, or of Speedy, each device's own tag is ambiguous |
| Router.OwnTagIsRouted | crates/speedy/src/lib.rs:266-268 | a device's current tag is routed if and only if no claim of another device, format or epoch produces it and its epoch is neither the first nor the last |
| Router.SlotsCoincide | crates/morph/src/lib.rs:387-389 | two slots of one device and format name the same epoch only in the first and the last epoch |
| Router.EpochWindow | crates/speedy/src/lib.rs:266-268 | both formats accept exactly the epochs at most one away |
| Subnet.PrefixMask | crates/admin-api/src/registry_store.rs:103-110 | a mask exists for /1 to /30 and leaves the host digits zero |
| Subnet.NetworkIsBase | crates/admin-api/src/registry_store.rs:53 | masking an address gives the first address of its block |
| Subnet.PoolInSubnet | crates/admin-api/src/registry_store.rs:53-58 | every candidate of the scan is in the subnet |
| Subnet.PoolExactly | crates/admin-api/src/registry_store.rs:53-57 | the scan runs over exactly the addresses after the network and below network + min(size - 1, 65535) |
| Subnet.SameNetwork | crates/admin-api/src/registry_store.rs:82 | two addresses are in one subnet exactly if they are in the same block of its size |
| Registry.ValidateDevices | crates/admin-api/src/registry_store.rs:63-92 | accepts exactly the non-empty lists of valid names and keys with distinct keys and distinct subnet addresses other than the tunnel's |
| Registry.ValidExactly | crates/admin-api/src/registry_store.rs:63-101 | validity spelt out: 1 to 80 bytes without control characters, decodable distinct keys, distinct addresses in the tunnel's block other than the tunnel's |
| Registry.NextAddress | crates/admin-api/src/registry_store.rs:47-61 | returns the lowest unused address after the network and below network + min(size - 1, 65535) that is not the tunnel's, and fails exactly if all of those are used |
| Registry.BuildLeases | crates/admin-api/src/registry.rs:232-251 | one active lease for each record, with a flag of its own |
| Registry.Open | crates/admin-api/src/registry.rs:98-131 | opens if and only if the stored or seeded records are valid and a new store can be written, and then the invariant holds |
| Registry.DeviceRegistry.Authorize | crates/admin-api/src/registry.rs:143-145 | answers with the current, active lease of a registered key |
| Registry.DeviceRegistry.Provision | crates/admin-api/src/registry.rs:152-189 | registers a fresh key at that lowest address and keeps the invariant; on failure nothing changes, and failure needs a bad name, a failed write, or every such address used |
| Registry.DeviceRegistry.Revoke | crates/admin-api/src/registry.rs:196-217 | removes exactly the records of the key and its lease, never the last device, and lowers its flag; of all leases ever handed out exactly the current ones are active |
| Registry.DeviceRegistry.ActiveIffCurrent | crates/admin-api/src/registry.rs:52-68 | in every valid registry, of all leases ever handed out exactly the current ones are active, and leases and records have the same keys, names and addresses |
| Registry.WithoutLast | crates/admin-api/src/registry.rs:202 | a removal keeps the other records in order |
| Registry.RemoveMirrors | crates/admin-api/src/registry.rs:202-215 | records and leases still match after a removal |
| Sessions.SessionTable.ReplaceClient | crates/server/src/daemon.rs:1105-1123 | refuses exactly an id that belongs to another address, and then changes nothing; otherwise the session is under its id and address, the ids of other addresses stay, and the indexes stay in bijection |
| Sessions.ReplaceKeepsBijection | crates/server/src/daemon.rs:1105-1123 | each session stays under its own address and exactly one id |
| Sessions.ReplaceIsLocal | crates/server/src/daemon.rs:1110-1121 | a rejected id collision changes nothing; an accepted insert drops only the previous session of the same address |
| Sessions.MatchesExactly | crates/server/src/daemon.rs:190-215 | a frame matches a session exactly if it came in the session's own format, client and profile |
| Sessions.AllowsExactly | crates/server/src/daemon.rs:178-188 | a masked format allows exactly the client it names |
| Server.RunKeepsInv | crates/server/src/daemon.rs:417-476 | every interleaving of the three threads, one lock, flag access or system call a step, keeps leases, flags, indexes, cache, batch and traffic consistent |
| Server.ForwardingIsSafe | crates/server/src/daemon.rs:787-923 | over every run, whatever is written or sent has the address granted to its session's key, a masked uplink came under that key's wire keys, nobody else held the address when it was checked, and the check came before any revocation of the key returned |
| Server.UplinkExactly | crates/server/src/daemon.rs:779-814 | uninterrupted, an uplink packet is written exactly if its id has a session, the flag is up, the format is the session's, the source is its address and the write succeeds |
| Server.DownlinkExactly | crates/server/src/daemon.rs:873-912 | uninterrupted, a TUN packet is sealed exactly if the batch has room, its destination has a session, the flag is up and sealing succeeds |
| Server.TransmitExactly | crates/server/src/daemon.rs:917-929 | sending takes the first datagrams of the batch in order and forgets the rest |
| Server.HandshakeExactly | crates/server/src/daemon.rs:678-777 | uninterrupted, a handshake opens a session exactly if its key is leased and allowed, it is not the cached request and its id does not belong to another address; and what the tables then hold |
| Server.ProvisionExactly | crates/admin-api/src/registry.rs:152-189 | a device is added exactly if its key is new and its address free |
| Server.RevokeExactly | crates/admin-api/src/registry.rs:196-217 | a revocation takes record and flag of its own key, exactly if that is leased and not the last |
| Revocation.SealedForTheHolder | crates/server/src/daemon.rs:881-897 | while a packet waits to be sealed, its device holds the destination if and only if its flag is up and its revocation has not begun; while the flag is up nobody else does |
| Revocation.HolderIffUndisturbed | crates/admin-api/src/registry.rs:196-217 | in every run, whatever is written, sealed or sent is so for the current holder of its address, if and only if its check fell outside any revocation of its key and no record of the key was removed since |
| Revocation.ForTheHolderIffNeverDisturbed | crates/server/src/daemon.rs:787-923 | everything a run writes, seals or sends is for the current holder if and only if no revocation overlaps a check and its packet |
| Revocation.LeaseLasts | crates/admin-api/src/registry.rs:202-213 | a granted key keeps its lease exactly until its record is removed |
| Revocation.LateSealReachesTheOldHolder | crates/server/src/daemon.rs:881-923 | a run in which revocation and a new lease fall between check and seal, and the datagram is sent |
| Revocation.CheckInsideARevocation | crates/admin-api/src/registry.rs:211-215 | a run in which the check passes after the record is gone and before the flag is down |
| Revocation.LateUplinkIsWritten | crates/server/src/daemon.rs:790-811 | a run in which a packet is written after the revocation of its device has returned |
| Revocation.LateBatchIsSent | crates/server/src/daemon.rs:909-923 | a run in which two datagrams sealed into one batch are sent after the revocation has returned, with no packet held |
| Revocation.RevokedForwardsOnlyWhatWasHeld | crates/server/src/daemon.rs:787-923 | once a revocation has returned, over every continuation: written is the one packet the UDP loop held then, if it completes it; sent are the key's datagrams among the first n of the batch as it stood and the packet held then, if its seal completes, where n is what the first batch to leave gets out; never more than one packet and one batch of 32, and nothing else ever |
| Revocation.RevokedIsNotCleared | crates/server/src/daemon.rs:790-792 | while its flag is down no check passes for a key, and a held packet is given up only by its own thread |
| Server.IndexesStayBijective | crates/server/src/daemon.rs:749-754 | the indexes are in bijection in every reachable state |
| Server.RepeatIsHarmless | crates/server/src/daemon.rs:708-722 | an exact repeat changes neither index and is answered with the cached response if that can be masked; the response belongs to the installed session if and only if the latest install was masked |
| Server.SessionOpens | crates/server/src/daemon.rs:698-775 | one handshake of a leased device reaches the state from which the example runs start |
| Server.StaleResponse | crates/server/src/daemon.rs:749-775 | a run in which a repeat is answered for a session that has been replaced |
| Server.MaskedRunsStayConsistent | crates/server/src/daemon.rs:757-775 | if every response can be masked, the cached response of every authorized key belongs to its installed session |
| Server.AdminKeepsDevices | crates/admin-api/src/registry.rs:199-215 | a flag is up exactly while its key is leased or being revoked, and leases stay injective |
| Server.InstallKeepsCache | crates/server/src/daemon.rs:749-775 | installing a session for a key, even one revoked meanwhile, leaves the other keys' cached responses right |
| Server.CheckIsSound | crates/server/src/daemon.rs:790-795 | a passed check shows that nobody else holds the session's address |
| RateLimit.HandshakeLimiter.AllowAt | crates/server/src/rate_limit.rs:40-72 | decides and updates as the specification does, including clean-up and the capacity rule |
| RateLimit.HandshakeLimiter.CleanUp | crates/server/src/rate_limit.rs:41-50 | drops exactly the expired counters when due |
| RateLimit.TableIsBounded | crates/server/src/rate_limit.rs:52-57 | the table never exceeds its capacity |
| RateLimit.WindowsAreLimited | crates/server/src/rate_limit.rs:59-71 | for every monotone run, any half-open interval of one window holds at most twice the allowance for an address |
| RateLimit.RejectionsAreEarned | crates/server/src/rate_limit.rs:52-69 | a call is turned away only if its address had a full allowance accepted within one window, or if as many other addresses as the table holds called within two |
| RateLimit.SweepsExpired | crates/server/src/rate_limit.rs:41-50 | every 4096th call, and every call a window after the last clean-up, leaves no expired counter of another address |
| RateLimit.CleanupIsInvisible | crates/server/src/rate_limit.rs:42-50 | while every caller is known or the table holds fewer than its maximum, every decision is that of a limiter that never cleans up |
| Traffic.MergePending | crates/admin-api/src/traffic.rs:370-389 | books every pending item, into its bucket or a new last one, with saturating sums |
| Traffic.MergeOne | crates/admin-api/src/traffic.rs:372-387 | finds the bucket of the hour and device, or appends one |
| Traffic.PersistPending | crates/admin-api/src/traffic.rs:126-176 | a committed flush upserts every item in turn, bound values saturating and a row sum beyond the SQL integer range turning unreadable, and prunes aged rows; nothing pending leaves the rows alone |
| Traffic.FirstRow | crates/admin-api/src/traffic.rs:501-503 | a device's first item of an hour becomes a row of its bytes, each amount cut at 2^63 - 1 |
| Traffic.PrunesExactly | crates/admin-api/src/traffic.rs:170-173 | a flush drops exactly the rows of other hours that are more than 400 days old |
| Traffic.BookTotal | crates/admin-api/src/traffic.rs:376-386 | booking adds the item to exactly the selections that cover it, up to saturation |
| Traffic.UpsertedExactly | crates/admin-api/src/traffic.rs:152-169 | within the SQL integer range, storing pending items adds exactly their bytes to every selection |
| Traffic.FittingStaysReadable | crates/admin-api/src/traffic.rs:152-169 | within that range every row stays readable |
| Traffic.BookedName | crates/admin-api/src/traffic.rs:157-160 | the booked item names its device and no other |
| Traffic.KeepTotal | crates/admin-api/src/traffic.rs:170-173 | loading a range and pruning old rows change no sum inside |
| Traffic.KeepName | crates/admin-api/src/traffic.rs:170-173 | nor any name |
| Traffic.BuildReport | crates/admin-api/src/traffic.rs:277-351 | hour, day and week totals, the hourly series and the device map are the saturated sums, and the latest names, of the buckets they select |
| Traffic.SeriesExactly | crates/admin-api/src/traffic.rs:178-182 | how many hours a report covers and which: 1 to 744, ending with the current one |
| Traffic.ReportIsOfTheStore | crates/admin-api/src/traffic.rs:178-193 | although only a range is loaded, the totals and every device are those of the whole store and the pending counters |
| Traffic.FlushIsInvisible | crates/admin-api/src/traffic.rs:126-193 | for every history, hour, pending items and query length, while row sums fit SQL integers, the rows can be read after a flush in that hour and the report is the same |
| Traffic.FlushIsInvisibleIffItFits | crates/admin-api/src/traffic.rs:195-218 | asked for the current hour, the report can be made and is the same after a flush if and only if every row sum fits an SQL integer |
| Traffic.OverflowIsUnreadable | crates/admin-api/src/traffic.rs:157-160 | one byte more than a row can hold, and no report of that hour can be read |
| Traffic.ReportAddsUp | crates/admin-api/src/traffic.rs:296-332 | below saturation the hourly series and the devices have the same sum, which is the day total for 24 hours and the week total for 168 |
| TrafficFlush.BytesAreConserved | crates/admin-api/src/traffic.rs:126-176 | with increments interleaved anywhere and any flush failing, all bytes of a device and direction are stored, live, held by the flusher or pruned |
| TrafficFlush.ReportsFallShortExactly | crates/admin-api/src/traffic.rs:178-193 | a report that loads rows and then reads counters while flushes go on counts no byte twice and misses exactly what the flusher holds, what was stored in between and what was pruned |
| TrafficFlush.CommitConserves | crates/admin-api/src/traffic.rs:140-176 | a committed transaction moves the held bytes into rows and aged rows out |
| TrafficFlush.PersistExactly | crates/admin-api/src/traffic.rs:126-138 | a flush ends with nothing to store, with all of it stored, or with none stored and a restore begun |
| TrafficFlush.CommitStores | crates/admin-api/src/traffic.rs:140-176 | a commit stores exactly what was taken |
| TrafficFlush.RestoreGivesBack | crates/admin-api/src/traffic.rs:268-274 | restoring one item returns exactly its bytes to the counters, and ends when none is left |
| TrafficFlush.TakeConserves | crates/admin-api/src/traffic.rs:220-266 | swapping counters one by one loses nothing counted in between |
| TrafficFlush.RestoreDownConserves | crates/admin-api/src/traffic.rs:268-274 | adding a failed flush back loses nothing |
| TrafficFlush.RestoreUpConserves | crates/admin-api/src/traffic.rs:268-274 | the first half of adding an item back loses nothing |
| Cidr.BlockedPrefixes | crates/windows-client/src/network.rs:584-606 | 32 well-formed prefixes, one of each length, contain every address but the server's exactly once, the server's never, and cover 2^32 - 1 addresses |
| Cidr.NextLength | crates/windows-client/src/network.rs:589-603 | each round blocks the sibling half of the server's block |
| Liveness.AttemptsAreSpaced | crates/linux-client/src/liveness.rs:42-91 | in every silent run each attempt waits the backoff in force after the one before, except at most one prompted by the first loss report; the backoff stays within 1 to 16 s |
| Liveness.BackoffDoubles | crates/linux-client/src/liveness.rs:67-78 | in every silent run, k attempts since a route was last missing leave a backoff of min(2^k, 16) s |
| Liveness.FirstAttemptWaitsForTheTimeout | crates/linux-client/src/liveness.rs:42-99 | once a packet is received or a session established, in every run without a loss report, a first attempt is due exactly from 20 s on, and none is made earlier |
| Liveness.LossIsDueAtOnce | crates/linux-client/src/liveness.rs:80-91 | a first loss report makes an attempt due at once if and only if the clock can represent an instant 20 s earlier |
| Liveness.ActionExactly | crates/linux-client/src/liveness.rs:42-54 | a reconnect is due exactly after 20 s of silence and the backoff, else a keepalive exactly after 10 s |
| Liveness.KeepaliveWaits | crates/linux-client/src/liveness.rs:56-58 | a keepalive puts the next off for 10 s and changes nothing about reconnects |
| Liveness.HearingRestarts | crates/linux-client/src/liveness.rs:60-99 | after a packet or a new session the backoff doubles from one second again and the next loss report counts; only a new session puts the keepalive off |
| Liveness.LossCountsOnce | crates/linux-client/src/liveness.rs:83-86 | a repeated loss report changes nothing |
| ClientLoop.ExpireKeepalives | crates/linux-client/src/packet_loop.rs:393-403 | pops and counts exactly the leading probes that waited 20 s |
| ClientLoop.PacketLoop.Take | crates/linux-client/src/packet_loop.rs:95-160 | each turn of the loop takes the step of the specification on a clock that does not run backwards |
| ClientLoop.PacketLoop.MaintainLiveness | crates/linux-client/src/packet_loop.rs:191-222 | sends a keepalive and queues it, reconnects, or does nothing, as the monitor decides |
| ClientLoop.PacketLoop.DoReconnect | crates/linux-client/src/packet_loop.rs:238-276 | writes off whatever is pending, whether or not the attempt succeeds |
| ClientLoop.KeepalivesAreConserved | crates/linux-client/src/packet_loop.rs:199-247 | over every run, sent equals responses plus timeouts plus pending, and pending probes were sent at least 10 s apart in order |
| ClientLoop.ReplySettlesTheNewest | crates/linux-client/src/packet_loop.rs:107-121 | a reply is matched to the newest probe and leaves the older ones |
| ClientLoop.MaintainAccounts | crates/linux-client/src/packet_loop.rs:191-276 | what each action and outcome does to queue, counters, silence, retry and backoff |
| ClientLoop.HearingIsNoted | crates/linux-client/src/packet_loop.rs:96-121 | any packet counts as hearing the server; only a keepalive settles a probe |
| ClientLoop.ExpiryLeavesAtMostTwo | crates/linux-client/src/packet_loop.rs:142-143 | right after expiry at most two probes are pending, all younger than 20 s |
| ClientLoop.ReconnectBecomesDue | crates/linux-client/src/liveness.rs:42-48 | after any run, 20 s of silence and 16 s since the last attempt make a reconnect due |
| Batch.DecodeBatch | crates/apple-native/src/ffi.rs:165-184 | the cursor loop computes the specified decoding on every input, with no read out of range |
| Batch.EncodeBatch | crates/apple-native/src/ffi.rs:186-195 | produces the wire form if and only if count and lengths fit 32 bits |
| Batch.WireLayout | crates/apple-native/src/ffi.rs:186-213 | count and lengths are four bytes, the most significant first, and the packets follow in order |
| Batch.DecodeInvertsEncode | crates/apple-native/src/ffi.rs:165-195 | an input decodes to a batch if and only if the batch is of 1 to 32 packets of 1 to 65535 bytes and the input is its wire form |
| Speedy.SpeedyCodec.Tags | crates/speedy/src/lib.rs:227-238 | the cache returns what would be computed |
| Speedy.SpeedyCodec.EncodeInto | crates/speedy/src/lib.rs:140-163 | the result does not depend on the cache, and a failure leaves the output empty |
| Speedy.SpeedyCodec.DecodeInto | crates/speedy/src/lib.rs:181-212 | the result does not depend on the cache, and a failure leaves the output empty |
| Speedy.DecodeInvertsEncode | crates/speedy/src/lib.rs:140-212 | an input decodes to a datagram at an epoch if and only if it is the encoding of that datagram at one of the epochs accepted then |
| Speedy.MaskedTwice | crates/speedy/src/lib.rs:218-225 | masking is an involution because the sampled tail is never masked |
| Speedy.FrameBytes | crates/speedy/src/lib.rs:140-163 | each byte of a frame: the tag, header bytes that differ from the clear ones in exactly the digits of their mask bytes, the rest in the clear, the code over all of it; the mask comes from tag and last 16 bytes |
| Speedy.ValidExactly | crates/speedy/src/lib.rs:245-263 | exactly which datagrams are taken, by their bytes |
| Speedy.EncodedDecodes | crates/speedy/src/lib.rs:181-212 | a frame fits 1452 bytes and decodes in every window that holds its epoch |
| Morph.MatchesRoutingTag | crates/morph/src/lib.rs:346-358 | trying the current epoch first accepts exactly the tags of the three epochs |
| Morph.EncodeInto | crates/morph/src/lib.rs:221-277 | builds the specified frame in the buffer, or reports an oversized datagram |
| Morph.DecodeInto | crates/morph/src/lib.rs:279-344 | decodes as specified and shifts the payload to the front of the buffer |
| Morph.FrameDecodes | crates/morph/src/lib.rs:279-344 | every frame within the limit, whatever its nonce and padding, decodes in every window that holds its epoch |
| Morph.DecodedIsFrame | crates/morph/src/lib.rs:279-344 | whatever decodes is such a frame of its result |
| Morph.EncodedDecodes | crates/morph/src/lib.rs:221-277 | for every random draw an encoded datagram fits 1472 bytes and decodes to itself |
| Morph.PaddingLength | crates/morph/src/lib.rs:245-248 | padding is at most 31 bytes and never exceeds the datagram limit |
| Morph.PaddingExactly | crates/morph/src/lib.rs:245-248 | padding is the low five bits of the choice, or the room left if less |
| Morph.FrameLayout | crates/morph/src/lib.rs:221-277 | encoding succeeds exactly up to 1430 bytes, and gives tag, nonce and the seal, for tag and direction, of the six header bytes, the datagram and the padding |
| Stack.PacketSurvivesTheStack | crates/server/src/daemon.rs:217-223 | for every MTU from 576 to 9000, wire mode, direction and random draw, an IP packet within the session MTU passes tunnel, masking within the format's limit, unmasking in the window and tunnel, unchanged up to its total length |
| Stack.UplinkArrivesIffPasses | crates/server/src/daemon.rs:779-814 | the same for the uplink through the server's own recognition and an installed session: the packet is written to the TUN device unchanged if the session's flag is up, the packet comes from the session's address, and its tag is not ambiguous, or in the plain format no claim starts like its datagram; otherwise it is not written |
| Stack.DatagramCanBeMasked | crates/server/src/daemon.rs:217-223 | the session MTU leaves room for masking every data datagram |
| Stack.UnmaskInvertsMask | crates/client-wire/src/lib.rs:88-127 | unmasking in the window undoes masking in each format and direction |
| Stack.SkewIsTolerated | crates/morph/src/lib.rs:396-402 | clocks at most one epoch apart are within the window |
| Stack.UplinkIsRouted | crates/server/src/daemon.rs:490-530 | a masked client frame is attributed to its device and format and unmasked exactly when its tag is not ambiguous, and dropped otherwise |
| Stack.LegacyIffUnclaimed | crates/server/src/daemon.rs:497-518 | a datagram passes as legacy if and only if no claim produces its first eight bytes |
| Stack.RecognisedExactly | crates/server/src/daemon.rs:490-530 | a frame is taken for one of a masked format exactly if its tag has a single claim, by that device and format, and it unmasks |
| Stack.ShortIsLegacy | crates/server/src/daemon.rs:497-518 | what is too short for a tag is taken as plain |
| Stack.MtuExactly | crates/server/src/daemon.rs:217-223 | the session MTU is the configured one, or 1391 under Speedy and 1280 under Morph if less |
| Stack.EpochExactly | crates/morph/src/lib.rs:48-54 | epochs last 10 s under Speedy and 30, 5 or 1 s under the profiles of Morph |

## Left out

- Noise handshakes, X25519, HKDF, HMAC, BLAKE3, ChaCha20-Poly1305 and base64: foreign libraries, represented by arbitrary functions or an ideal AEAD.
- Sockets, TUN devices, firewalls, routes, DNS, SQLite internals and files: their outcome is a parameter of the step; SQLite is an ordered list of rows with a transaction that commits or fails.
- Owned `TunnelDataPlane`: the same framing as the two halves, with a fresh buffer for each packet.
- Endpoint roaming (`adopt_peer`), keepalive answers of the server, and logging: no property here depends on them.
- `MorphRouter::resolve` refreshing once a second, and the tables left behind by a refresh that fails half way.
- Poisoned locks, wrap-around of traffic counters, and a clock that runs backwards or ticks during a refresh: excluded by assumption.
- TrafficFlush.BytesAreConserved: bounds the bytes each device moved by the SQL integer range, beyond which stored amounts are no longer exact.
- Pending items: report and flush take them in the same order.
- Order of equal devices in a report: the device list is a map here.
- Trimming of device names and TOML: names arrive trimmed, as UTF-8 bytes.
- The reconnect generation tag, migration and session replacement of the client, and the Android, macOS and Windows loops.
- `ServerState`, `UserRegistry`, `SessionTable` of the server crate: not used by the daemon.
- User interfaces, the kernel driver, admin pages and command lines.
- Registry.DeviceRegistry.Provision: takes the generated key as a parameter and requires that no current device has it; the code relies on the key generator for that.
- Server.ForwardingIsSafe: like the theorems of `Revocation`, assumes that a generated key is never generated again, since revocation times are kept by key.
- Locks, aliasing and threads: the server and the flusher are state machines whose steps are the atomic accesses and critical sections; the tables and records they use are classes in their own modules.
- Replay.ReplayWindow.MarkAuthenticated: requires a sequence that is not too old, which its only caller has just checked.
- Tunnel.TunnelSender.EncodeInto: assumes that sealing itself succeeds whenever the plaintext fits.
