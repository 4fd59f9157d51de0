# A verified model of the WireGuard protocol engine

This project models boringtun, a userspace WireGuard implementation, in Dafny and
proves what its protocol engine promises over whole runs.

Each object the program updates in place is a class here, and each of its methods
is proved equal to a function on values: the anti-replay bitmap, the session, the
handshake, the timers, the tunnel, the rate limiter, the index generator, the
allowed-IP table and the device tables. The theorems are about those functions
and about runs: sequences of calls, of thread steps or of network deliveries, of
any length and in any order. Concurrency (the two locked steps of receiving, the
limiter counters, the upgrade lock) is a step system over any number of threads.

| files | what they hold |
|---|---|
| Common, Crypto, Wire, Timestamps | bytes and integers, the symbolic primitives with their laws, the four messages, TAI64N |
| Replay, ReplayRuns, Sessions, Link | the 1024-bit window refining the set of accepted counters; sessions; a link between two of them |
| Noise, NoisePattern, Handshakes, HandshakeRuns, KeyAgreement | the Noise IK handshake, its token pattern, its object, its runs, two parties |
| RateLimiters, Admission, Gatekeeping | the limiter, cookies, how much it admits and what reaches a tunnel |
| Tunnel, SessionRings, Tunnels, TunnelInvariants, TunnelRuns | the tunnel and its timers, the objects (ring of sessions, timers, tunnel), invariants and runs |
| Rekeying, TimerRecords, Retransmission, Keepalives, Switching | when a tunnel acts and what its timers mean; which session it uses |
| Conservation, Flush, Loss, TunnelReplay, Emissions, SenderCounters, Nonces, IpPackets, TwoTunnels, Delivery | the run-level results about packets |
| PeerIndex, AllowedIps, IpRanges, Device, Configuration, Devices, DevLock | index generator, longest match, peer tables, upgrade lock |

Conventions. Times are nanoseconds on a clock that never goes back, with one
reading per call. The 64-bit sums of the source wrap, as they do in a release
build; they are written out where they may. Cryptography is a record of functions
with the laws that opening undoes sealing, that lengths are fixed and that
Diffie-Hellman commutes; random keys, nonces and seeds are parameters. Buffers
obey the documented contract in the run-level results, and what happens outside
it is stated where it matters.

Five things the code does that a reader might not expect, each with its exact
condition: accepting the last counter, 2^64 - 1, wraps the window and lets every
earlier counter in again (`ReplayRuns.ReplayRefusedIff`), and the loss estimate
may then be negative (`Loss.LossStaysShareIff`); within 1024 of that counter late
packets are refused unseen (`ReplayRuns.AcceptedCounters`); nothing limits the
packets sent on one session (`Link.SendingCountersRepeatIff`); a flush without a
session and with a short buffer queues the head twice
(`Flush.FlushConservesIff`). Where comments and code disagree the model follows
the code: timers are not rounded to a second
(boringtun/src/noise/timers.rs:182-186), retransmission has no jitter
(boringtun/src/noise/timers.rs:231-239), and a queue flushed without a session
is turned, not kept in order (boringtun/src/noise/mod.rs:518-529).

## Model

| member | source | states |
|---|---|---|
| `TwoTunnels.TunnelsEndToEnd` | boringtun/src/noise/mod.rs:258-437 | Over any run of a sending tunnel and any run of a receiving one, with a network that drops, duplicates and reorders: every packet handed to the interface is cut from a packet the sender was given, with its source address; the delivered packets are a sub-multiset of the given ones and the accepted plaintexts of the sealed ones, so nothing is delivered more often than it was given; no session either ring ever held seals or accepts under one counter twice. Rekeying, queueing, retransmission and expiry happen freely on both sides. |
| `TwoTunnels.SourcesDiffer` | boringtun/src/noise/mod.rs:414-437 | The map from acceptances to the emitting calls of the sender is injective: two acceptances never come from one emission |
| `TwoTunnels.AcceptedAtMostSealed` | boringtun/src/noise/mod.rs:414-437 | Nothing is accepted more often than it was sealed |
| `TwoTunnels.SealedAtMostGiven` | boringtun/src/noise/mod.rs:258-276 | No packet but the empty keepalive is sealed more often than it was given, through queueing, rotation and expiry |
| `SenderCounters.SendingCountersDistinct` | boringtun/src/noise/session.rs:200-210 | Over every run of fewer than 2^64 calls of a tunnel, no session its ring ever held seals two packets under one counter, the keepalive after a handshake response included |
| `Nonces.NoncesNeverRepeat` | boringtun/src/noise/session.rs:200-237 | So no session a ring ever held seals two packets under one nonce |
| `Nonces.SealedUnderCounter` | boringtun/src/noise/session.rs:200-237 | On the bytes: a data datagram is 4, the index of the peer, the eight counter bytes, and the packet sealed under the nonce of four zero bytes and those eight |
| `Nonces.OpenedUnderCounter` | boringtun/src/noise/session.rs:243-273 | What a session accepts, by an if-and-only-if on the bytes: its own index, a counter neither too far behind nor seen, a ciphertext that opens under the nonce of those eight bytes; and which error every other datagram gets |
| `Nonces.EmittedUnderCounter` | boringtun/src/noise/mod.rs:258-377 | The data datagram of any call of a tunnel is sealed under the nonce it shows, with the key and counter the call drew |
| `Nonces.NoncesDiffer` | boringtun/src/noise/session.rs:216-222 | Different counters give different nonces |
| `Emissions.CallEmits` | boringtun/src/noise/mod.rs:258-377 | A call puts a datagram that reads as data on the wire exactly when it seals a packet, and then that packet; handshake messages are never read as data |
| `Emissions.SentIsEmitted` | boringtun/src/noise/mod.rs:258-276 | Over every run what the ledger books as sent is the sequence of what the data datagrams put on the wire by encapsulation, flushing and keepalives open to under the key of the sending session |
| `Emissions.OpensToSealed` | boringtun/src/noise/mod.rs:258-276 | The datagram of a call opens to the plaintext the call sealed, and there is one exactly when it sealed one |
| `Delivery.QueuedPacketsArrive` | boringtun/src/noise/mod.rs:258-529 | For any two tunnels configured for each other, a packet given to one without a session is queued and starts a handshake, the handshake completes, the queue is flushed. Of the keepalive and all flushed datagrams any subset may arrive, in any order: each arrival is answered exactly as its own packet demands, a valid IP packet by its delivery |
| `Delivery.SendConnects` | boringtun/src/noise/mod.rs:258-377 | The three messages that follow such a packet leave both sides with crossing sessions, the sender using its own, and the packet at the end of the queue |
| `Delivery.AnyOrderArrives` | boringtun/src/noise/mod.rs:414-515 | Any selection of the first packets of a session, in any order, is accepted and unwrapped, each to its own plaintext; the peer then has accepted exactly these |
| `Link.EndToEndSafety` | boringtun/src/noise/session.rs:200-273 | Between two crossing sessions, with many receiving threads interleaved: each delivered plaintext is the one formatted under that counter, and no counter is delivered twice |
| `Link.InWindowIsDelivered` | boringtun/src/noise/session.rs:243-273 | The converse, for every packet sent: its datagram is delivered whenever it arrives if and only if it was not delivered before and the guard of the mark lets its counter through (at most 1024 behind, or within 1024 of 2^64 the wrapped sum not behind next) |
| `Link.HandshakeGivesPair` | boringtun/src/noise/handshake.rs:501-641 | The sessions a completed handshake leaves on both sides are fresh, cross in keys and indices, and so satisfy the premise of the two results above in both directions |
| `Link.SendingCountersRepeatIff` | boringtun/src/noise/session.rs:200-210 | Packets i and j of a session share a counter exactly when they are a multiple of 2^64 apart; no message limit is enforced |
| `Link.MarkReceivedRefines` | boringtun/src/noise/session.rs:188-195 | The session-level mark, with its wrapping count, refines the mark of the replay model |
| `Replay.CounterValidator.MarkDidReceive` | boringtun/src/noise/session.rs:108-155 | The bitmap mark computes the mark of the simple form (a set of accepted counters) and keeps the refinement, for every counter and every result, the wrap of next included |
| `Replay.CounterValidator.ClearSkipped` | boringtun/src/noise/session.rs:134-151 | The three clearing loops clear exactly the positions at which some counter of [next, counter) sits, leave every other bit, and compute no index past 2^64 |
| `Replay.CounterValidator.ClearAll` | boringtun/src/noise/session.rs:129-133 | A skip of a whole window clears every bit |
| `Replay.CounterValidator.MarkLate` | boringtun/src/noise/session.rs:120-127 | A late counter is refused exactly when it was accepted before |
| `Replay.CounterValidator.MarkAhead` | boringtun/src/noise/session.rs:128-155 | A counter ahead moves the window; what remains in it keeps its marks |
| `Replay.CounterValidator.MarkNext` | boringtun/src/noise/session.rs:113-119 | The counter in order is marked and the window moves by one |
| `Replay.CounterValidator.WillAcceptCounter` | boringtun/src/noise/session.rs:89-103 | The quick check on the bitmap answers as the simple form does |
| `Replay.CounterValidator.SetBit` | boringtun/src/noise/session.rs:55-60 | Sets one bit of the sixteen words and no other |
| `Replay.CounterValidator.ClearBit` | boringtun/src/noise/session.rs:63-68 | Clears one bit and no other |
| `Replay.CounterValidator.ClearWord` | boringtun/src/noise/session.rs:72-76 | Clears the 64 positions around a counter and no other |
| `Replay.CounterValidator.CheckBit` | boringtun/src/noise/session.rs:80-85 | Reads the bit of a counter |
| `Replay.AdvancePreserves` | boringtun/src/noise/session.rs:108-155 | Clearing the skipped range and setting one bit turns a refinement of the old window into one of the new |
| `Replay.LatePreserves` | boringtun/src/noise/session.rs:120-127 | Setting a late bit disturbs no other counter of the window |
| `ReplayRuns.ReplaySafety` | boringtun/src/noise/session.rs:182-195 | However threads interleave between quick check and mark, and whatever arrives, no counter is accepted twice until 2^64 - 1 is accepted; the packet count is the number of distinct accepted counters and at most the number expected |
| `ReplayRuns.AcceptedCounters` | boringtun/src/noise/session.rs:89-155 | Both checks, each by an if-and-only-if for every counter: up to 1024 before 2^64 they accept exactly the unseen counters at most 1024 behind; past that point the quick check accepts exactly the unseen ones not behind next, and the mark exactly those whose wrapped sum is not behind next |
| `ReplayRuns.LateCounterLost` | boringtun/src/noise/session.rs:89-103 | The input that shows it: after counter 2^64 - 2 the unseen counter 2^64 - 3 is refused before decryption |
| `ReplayRuns.ReplayRefusedIff` | boringtun/src/noise/session.rs:108-155 | Over every run: all counters accepted so far stay refused, at every point of the run, if and only if 2^64 - 1 is never accepted |
| `ReplayRuns.MarkKeepsValidIff` | boringtun/src/noise/session.rs:108-155 | For one acceptance: the accepted counters stay below next, and the new one is refused next time, if and only if it is not 2^64 - 1 |
| `ReplayRuns.LastCounterReplayed` | boringtun/src/noise/session.rs:108-155 | A failing run: the last counter, arriving first, is accepted twice |
| `ReplayRuns.EarlierCounterReplayed` | boringtun/src/noise/session.rs:108-155 | Another: counters 5, 2^64 - 1 and 5 again are all accepted |
| `TunnelReplay.TunnelReplaySafety` | boringtun/src/noise/mod.rs:326-437 | Over every run of a tunnel whose ring replaces sessions at will, whatever packets it handles, no session accepts a counter twice unless one accepts 2^64 - 1 |
| `TunnelReplay.DeliveryIsAccepted` | boringtun/src/noise/mod.rs:414-437 | Nothing reaches the interface without being accepted by a session of the ring |
| `Sessions.LiveSession.Format` | boringtun/src/noise/session.rs:200-237 | Formatting draws the next counter, wrapping, and writes the sealed datagram; on the bytes, `Nonces.SealedUnderCounter` |
| `Sessions.LiveSession.Receive` | boringtun/src/noise/session.rs:243-273 | Receiving checks index, counter, tag and counter again, in that order, changes the session only on success, and keeps the bitmap refinement in every case; on the bytes, `Nonces.OpenedUnderCounter` |
| `Sessions.LiveSession.CurrentPacketCnt` | boringtun/src/noise/session.rs:276-279 | Reports expected and received packets |
| `Sessions.LiveSession.constructor` | boringtun/src/noise/session.rs:159-175 | A new session has accepted nothing and sent nothing |
| `Wire.ParseEncode` | boringtun/src/noise/mod.rs:132-167 | Parsing undoes formatting for all four messages, whatever the MAC bytes are |
| `Wire.EncodeParse` | boringtun/src/noise/mod.rs:132-167 | Whatever parses is the formatted form of what it parses to, followed by a trailer of the right size |
| `Wire.EncodedBytes` | boringtun/src/noise/handshake.rs:698-848 | Where every field of the four messages lies, in bytes, with the first byte 1, 2, 3 or 4 and three zeros after it |
| `Wire.ParsesIff` | boringtun/src/noise/mod.rs:132-167 | Which datagrams parse and as what: the first four bytes and the length 148, 92, 64 or at least 32 decide |
| `KeyAgreement.KeyAgreementOverRuns` | boringtun/src/noise/handshake.rs:501-641 | In every run of two parties over a network that may deliver any bytes, an initiation completed with the answer given to it yields sessions whose keys and indices cross |
| `KeyAgreement.AnswerCompletes` | boringtun/src/noise/handshake.rs:574-641 | While an initiation is in the current or the previous slot, its answer does complete it, with the crossing session |
| `KeyAgreement.ResponderReadsInitiation` | boringtun/src/noise/handshake.rs:501-572 | The responder reads an initiation to the very transcript its sender keeps, through different derivation code; the anonymous reader finds the sender |
| `KeyAgreement.InitiatorReadsResponse` | boringtun/src/noise/handshake.rs:574-641 | The initiator reads the response built on that transcript, and the sessions cross; an absent preshared key is the all-zero key. What either side mixes is `NoisePattern` |
| `KeyAgreement.InitiationOnTheWire` | boringtun/src/noise/handshake.rs:698-770 | The datagram of an initiation parses back to the message made, MACs and cookie included |
| `KeyAgreement.ResponseOnTheWire` | boringtun/src/noise/handshake.rs:772-848 | So does the datagram of a response |
| `NoisePattern.InitiationFollowsPattern` | boringtun/src/noise/handshake.rs:698-770 | The initiation is the first message of Noise IKpsk2: the token list e, es, s, ss folded over one symmetric state from the side of the initiator, with the timestamp as payload; what is kept is the final state |
| `NoisePattern.ReadingFollowsPattern` | boringtun/src/noise/handshake.rs:501-572 | Reading it is the same fold from the side of the responder: accepted exactly when the sealed static key opens to the one configured and the timestamp opens to twelve bytes |
| `NoisePattern.AnonymousFollowsPattern` | boringtun/src/noise/handshake.rs:351-386 | The anonymous reader is the fold over the first two tokens; which error a static key that does not open, or is another one, leads to |
| `NoisePattern.ResponseFollowsPattern` | boringtun/src/noise/handshake.rs:772-848 | The response is the second message, e, ee, se, psk, with an empty payload; the session of the responder holds the two outputs of the final state |
| `NoisePattern.OpeningFollowsPattern` | boringtun/src/noise/handshake.rs:574-641 | Reading it is that fold from the side of the initiator: accepted exactly when the empty payload opens, with the two keys the other way round |
| `NoisePattern.PrecomputedKeys` | boringtun/src/noise/handshake.rs:391-429 | The MAC and cookie keys are hashes of their labels and the key of the peer; parameters stay coherent when made and when the private key changes |
| `NoisePattern.ThreeOutputs` | boringtun/src/noise/handshake.rs:75-95 | The three derivation functions are the outputs of one chain |
| `HandshakeRuns.HandshakeRunSafety` | boringtun/src/noise/handshake.rs:457-641 | Over every run: no initiation makes two sessions, accepted timestamps strictly increase, every index keeps its 24-bit prefix, and the slot invariant holds |
| `HandshakeRuns.ResponseMatchesOnce` | boringtun/src/noise/handshake.rs:574-641 | A response matches at most one slot, and none once it has made a session |
| `HandshakeRuns.InitReceivedVisibleIff` | boringtun/src/noise/handshake.rs:501-572 | A received initiation is left visible between calls exactly when it is acceptable and the buffer is too small for the response |
| `HandshakeRuns.IncIndexCycles` | boringtun/src/noise/handshake.rs:486-491 | The index cycles in its low byte and keeps the upper 24 bits |
| `HandshakeRuns.ResponseTakenIff` | boringtun/src/noise/handshake.rs:574-641 | A response makes a session exactly when it names an initiation in flight and opens against it; exactly that slot is freed, and the round trip is measured in milliseconds |
| `HandshakeRuns.InitiationTakenIff` | boringtun/src/noise/handshake.rs:501-572 | An initiation is answered exactly when it opens, its timestamp is later than all accepted before, and there is room for the answer |
| `HandshakeRuns.FirstInitiationTaken` | boringtun/src/noise/handshake.rs:431-455 | A new handshake has nothing in flight and answers any initiation it can read whose timestamp is not all zero |
| `Handshakes.LiveHandshake.FormatInitiation` | boringtun/src/noise/handshake.rs:698-770 | The in-place computation, step by step, is the initiation of the model |
| `Handshakes.LiveHandshake.FormatResponse` | boringtun/src/noise/handshake.rs:772-848 | The same for the response and the session keys, which are those of `NoisePattern.ResponseFollowsPattern` |
| `Handshakes.LiveHandshake.ReceiveInitialization` | boringtun/src/noise/handshake.rs:501-572 | The same for reading an initiation, with every refusal leaving the state as it was |
| `Handshakes.LiveHandshake.ReceiveResponse` | boringtun/src/noise/handshake.rs:574-641 | The same for reading a response, in either slot; what is accepted is `NoisePattern.OpeningFollowsPattern` |
| `Handshakes.LiveHandshake.ReceiveCookie` | boringtun/src/noise/handshake.rs:643-672 | A cookie is taken only for the last message sent |
| `Handshakes.LiveHandshake.AppendMac1AndMac2` | boringtun/src/noise/handshake.rs:675-696 | Appends both MACs and remembers the first |
| `Handshakes.LiveHandshake.IncIndex` | boringtun/src/noise/handshake.rs:486-491 | Moves the index on in its low byte |
| `Handshakes.LiveHandshake.SetExpired` | boringtun/src/noise/handshake.rs:468-471 | Expires both slots |
| `Handshakes.LiveHandshake.ClearCookie` | boringtun/src/noise/handshake.rs:481-483 | Forgets the cookie |
| `Handshakes.LiveHandshake.SetStaticPrivate` | boringtun/src/noise/handshake.rs:493-499 | Recomputes everything that depends on the private key |
| `Handshakes.LiveHandshake.constructor` | boringtun/src/noise/handshake.rs:431-455 | A new handshake has nothing in flight |
| `Timestamps.AfterIsByteOrder` | boringtun/src/noise/handshake.rs:230-250 | Comparing parsed timestamps is comparing their twelve bytes |
| `Timestamps.StampsKeepTimeOrder` | boringtun/src/noise/handshake.rs:213-220 | A later clock reading yields a later timestamp, and its bytes order the same way, until the 64-bit seconds wrap |
| `Timestamps.StampBytes` | boringtun/src/noise/handshake.rs:213-220 | The twelve bytes are the seconds above 2^62 + 37 and the nanoseconds, big-endian |
| `RateLimiters.CookieRoundTrip` | boringtun/src/noise/rate_limiter.rs:95-198 | Across limiter and handshake: the cookie reply to the last message is accepted by its sender, whose next message then passes at any load, for the same address and 128-second period |
| `RateLimiters.CookieReplyAccepted` | boringtun/src/noise/rate_limiter.rs:121-156 | A loaded limiter answers a message it cannot admit with a reply its sender opens to the current cookie |
| `RateLimiters.CookieHolderPasses` | boringtun/src/noise/rate_limiter.rs:159-198 | A message formatted with the current cookie passes whatever the load |
| `RateLimiters.PassesIff` | boringtun/src/noise/rate_limiter.rs:159-198 | The converse and more: a handshake message passes if and only if its first MAC is that of everything before it and either the count is below the limit or its last 16 bytes are the MAC of the rest under the current cookie of its address; a bad first MAC is refused as such and leaves the limiter as it was |
| `RateLimiters.UncheckedPasses` | boringtun/src/noise/rate_limiter.rs:159-198 | Everything else that parses passes uncounted, and what does not parse is refused |
| `RateLimiters.CookieInputsAgreeIff` | boringtun/src/noise/rate_limiter.rs:95-109 | The bytes a cookie is computed from agree exactly for the same period and the same address, or a v4 address and the v6 address of its octets and twelve zeros |
| `RateLimiters.CookieInputBytes` | boringtun/src/noise/rate_limiter.rs:95-109 | Those bytes are the eight of the period and sixteen of the address, a v4 address filled up with zeros |
| `RateLimiters.PeriodBounds` | boringtun/src/noise/rate_limiter.rs:95-109 | A period is 128 seconds of the life of the limiter |
| `RateLimiters.ResetIff` | boringtun/src/noise/rate_limiter.rs:84-92 | The count is cleared exactly when a second has passed since the last time |
| `RateLimiters.NonceFollowsCounter` | boringtun/src/noise/rate_limiter.rs:111-115 | The nonce of a reply is computed from the eight bytes of the counter drawn |
| `RateLimiters.FormattedMacs` | boringtun/src/noise/handshake.rs:675-696 | The layout of the trailer: the first MAC over the message, the second over message and first MAC, or zeros without a cookie |
| `RateLimiters.MadeForKeyGuards` | boringtun/src/noise/rate_limiter.rs:61-75 | A limiter made for a public key guards the handshakes configured with it |
| `RateLimiters.CookieReplyBytes` | boringtun/src/noise/rate_limiter.rs:121-156 | A cookie reply on the wire: the index it answers, the nonce drawn, the cookie sealed to the first MAC of the message it answers |
| `RateLimiters.CookieTakenIff` | boringtun/src/noise/handshake.rs:643-672 | A cookie is taken exactly from a reply to the last message, sealed to its first MAC; anything else changes nothing |
| `Gatekeeping.OnlyAdmittedReaches` | boringtun/src/noise/mod.rs:284-310 | A datagram reaches the tunnel if and only if the limiter admits it, as the packet it parses to; any other leaves the tunnel as it was and is refused for its bytes, its first MAC or want of an address, or answered with a cookie |
| `Gatekeeping.OwnLimiterIs` | boringtun/src/noise/mod.rs:228-230 | The own limiter of a tunnel lets ten messages a second through and guards the key of the tunnel |
| `RateLimiters.RateLimiter.Verify` | boringtun/src/noise/rate_limiter.rs:159-198 | The checks in order, with what each path counts and draws; who passes is `RateLimiters.PassesIff` |
| `RateLimiters.RateLimiter.CookieReply` | boringtun/src/noise/rate_limiter.rs:121-156 | Formats a reply under a fresh nonce |
| `RateLimiters.RateLimiter.Reset` | boringtun/src/noise/rate_limiter.rs:84-92 | Clears the count when a second has passed |
| `RateLimiters.RateLimiter.IsUnderLoad` | boringtun/src/noise/rate_limiter.rs:117-119 | Counts one message and compares the count before it |
| `RateLimiters.RateLimiter.Nonce` | boringtun/src/noise/rate_limiter.rs:111-115 | Draws one nonce counter |
| `Admission.AdmissionBound` | boringtun/src/noise/rate_limiter.rs:84-119 | In any interleaving, with the clock read before the lock is taken, at most limit x (whole seconds since the last reset before the run + 1) messages pass without a cookie |
| `Admission.NoncesDistinct` | boringtun/src/noise/rate_limiter.rs:111-115 | All nonce counters drawn are distinct |
| `TunnelRuns.TunnelSafety` | boringtun/src/noise/mod.rs:258-470 | Over every run: in-flight slots well formed; an expired tunnel holds neither session nor queued packet; slot i holds only sessions whose index is i modulo 8 with the prefix of the tunnel; the queue stays within 256; the prefix never changes |
| `TunnelRuns.SubtractionsSucceed` | boringtun/src/noise/timers.rs:156-317 | In every reachable state no timer is ahead of the clock, so none of the checked subtractions can fail |
| `TunnelRuns.TimersNeverDecrease` | boringtun/src/noise/timers.rs:92-142 | Along a run no timer goes back |
| `TunnelRuns.SessionLifetime` | boringtun/src/noise/timers.rs:156-170 | Unless it gives up, an update keeps exactly the sessions at most 180 seconds old |
| `TunnelRuns.NothingOldSurvives` | boringtun/src/noise/timers.rs:156-317 | In every case nothing older than 180 seconds survives an update |
| `TunnelRuns.SlotTimerIsEstablishment` | boringtun/src/noise/timers.rs:133-142 | The timer of a live slot is the tick at which its session was established, over every run |
| `TunnelRuns.AcceptedMakesCurrentLive` | boringtun/src/noise/mod.rs:351-437 | After an accepted data packet or response the session used for sending exists |
| `TunnelRuns.KeyChange` | boringtun/src/noise/mod.rs:235-250 | A new private key reaches the handshake with everything derived from it; every session goes, everything else stays |
| `Switching.NewestConfirmedIsUsed` | boringtun/src/noise/mod.rs:398-411 | Over every run: whenever some session is known to work (its handshake was answered, or a packet arrived on it), packets are sent on a live session at least as new as all of those |
| `Switching.SwitchTakesNewer` | boringtun/src/noise/mod.rs:398-411 | Of two live sessions the newer one is used, the asked-for one on a tie, and nothing else changes |
| `Switching.ResponseIsUsed` | boringtun/src/noise/mod.rs:351-377 | The session of an accepted response is used from then on |
| `Switching.OthersKeepCurrent` | boringtun/src/noise/mod.rs:258-349 | No other call than an accepted packet or response changes the session in use; answering an initiation does not |
| `Rekeying.UpdateDecides` | boringtun/src/noise/timers.rs:172-317 | What an update does, in seconds and from the tunnel as it finds it: expired stays expired; 540 seconds after the last handshake, or 90 into an attempt, it gives up; 5 seconds after the last initiation it sends another; as initiator it starts a handshake for keys 120 seconds old and used to send or 165 and used to receive; on either side for data unanswered for 15 seconds; after 10 seconds, or on the persistent interval, it sends a keepalive, or an initiation without a session; otherwise nothing |
| `Rekeying.SendDecides` | boringtun/src/noise/mod.rs:258-276 | Sending seals on the current session, or else queues, up to 256 packets, and starts a handshake unless one is in flight; an expired tunnel starts one |
| `Rekeying.StartDecides` | boringtun/src/noise/mod.rs:441-468 | Asking for a handshake starts one, unless one is in flight and it is not forced |
| `Rekeying.CookieExpiry` | boringtun/src/noise/timers.rs:202-208 | A cookie is dropped at 120 seconds and no sooner |
| `TimerRecords.IdleUpdateIff` | boringtun/src/noise/timers.rs:241-314 | Over every run, told by what happened and not by the timers: an update that finds no handshake in flight starts one if and only if the last handshake was completed here as initiator and its keys are worn, or data sent stayed unanswered, or a keepalive is due and no session is there; it sends a keepalive, or does nothing, exactly in the remaining cases |
| `TimerRecords.TimersTellTheRun` | boringtun/src/noise/timers.rs:92-142 | Over every run each of the nine timers is the tick of the last event it is named after, or of the last time everything started over |
| `TimerRecords.FlagsTellTheRun` | boringtun/src/noise/timers.rs:116-142 | Over every run the role is that of the last handshake completed, and the two wishes say which way the last packet went |
| `TimerRecords.CallRecords` | boringtun/src/noise/mod.rs:258-515 | Each call stamps exactly the timers of the events that happen in it |
| `TimerRecords.CallFlags` | boringtun/src/noise/timers.rs:116-142 | Each call changes wishes and role exactly by what happens in it |
| `IpPackets.ValidatedByBytes` | boringtun/src/noise/mod.rs:472-515 | On the header bytes: first byte 64 to 79 with at least 20 bytes, or 96 to 111 with at least 40; cut to the length in bytes 2 and 3, or 4 and 5 plus 40; source address in bytes 12 to 16 or 8 to 24; anything else refused |
| `IpPackets.ReadUnwraps` | boringtun/src/noise/mod.rs:414-437 | A data packet is answered by what it opens to; one for an empty slot, or refused by its session, changes nothing |
| `TunnelInvariants.CallKeeps` | boringtun/src/noise/mod.rs:258-470 | Every call keeps the tunnel invariant and moves no timer back |
| `Retransmission.RetransmissionBound` | boringtun/src/noise/timers.rs:218-239 | One attempt is resent at most 17 times by the timer, resending never moves its start, and the first update at least 90 seconds after it ends an attempt still open |
| `Retransmission.UpdateOpen` | boringtun/src/noise/timers.rs:211-239 | Exactly when an update resends, waits or gives up |
| `Keepalives.PassiveNeedsData` | boringtun/src/noise/timers.rs:283-291 | Between two passive keepalives, and before the first, a valid IP packet was accepted: keepalives never answer keepalives |
| `Keepalives.KeepaliveIsEmptySend` | boringtun/src/noise/timers.rs:283-314 | A keepalive is exactly the encapsulation of an empty packet |
| `Conservation.ConservationOverRuns` | boringtun/src/noise/mod.rs:258-276 | Over any run every packet given is exactly one of sent, queued, refused by the full queue or dropped by an expiry, and both byte counters are the payload totals; what counts as sent is tied to the wire by `Emissions.SentIsEmitted` |
| `Conservation.EncapsulateBooks` | boringtun/src/noise/mod.rs:258-276 | What is booked as sent is what goes on the wire, sealed |
| `Conservation.HandleBooks` | boringtun/src/noise/mod.rs:312-515 | Receiving touches neither queue nor sent bytes and counts exactly what it delivers |
| `Flush.FlushIsFifo` | boringtun/src/noise/mod.rs:518-529 | With a live session repeated flushing emits the whole queue in order under consecutive counters, then reports done |
| `Flush.FlushTurnsQueue` | boringtun/src/noise/mod.rs:518-529 | Without one it only turns the queue, and only the first call may emit one initiation |
| `Flush.FlushTerminates` | boringtun/src/noise/mod.rs:281-293 | Repeating the call ends after at most one more call than there were packets |
| `Flush.FlushQueue` | boringtun/src/noise/mod.rs:518-546 | Without a session a flush turns the queue by one packet; only with no handshake in progress, a short buffer and room left does it put the head at both ends |
| `Flush.FlushConservesIff` | boringtun/src/noise/mod.rs:518-546 | Without a session the packets of the queue are kept exactly when a handshake is in progress, the buffer holds an initiation, or the queue is full; otherwise the head is queued twice |
| `Loss.LossIsShare` | boringtun/src/noise/mod.rs:552-580 | Over every run the reported loss lies in [0, 1], unless a session accepts 2^64 - 1 |
| `Loss.LossStaysShareIff` | boringtun/src/noise/mod.rs:560-568 | On a session with a true count, the loss stays in [0, 1] whatever packet comes after the next one if and only if the next one is not 2^64 - 1 |
| `Loss.NegativeLoss` | boringtun/src/noise/mod.rs:560-568 | The failing run: the last counter and then counter 0 make the loss -1 |
| `SessionRings.SessionRing.EstimateLoss` | boringtun/src/noise/mod.rs:552-580 | The accumulating loop over the session objects, with its wrapping ring index, computes the weighted mean of the losses, newest session first |
| `Loss.MeanBetween` | boringtun/src/noise/mod.rs:552-580 | The estimate lies between any bounds of the losses of the sessions |
| `Loss.LossIsShareIff` | boringtun/src/noise/mod.rs:560-568 | The loss of one session is a share exactly when it counts no more packets than it expects |
| `Loss.FirstWeights` | boringtun/src/noise/mod.rs:552-580 | The mean of one, two and three sessions, weighing 9, 3 and 1 |
| `Loss.LossCounts` | boringtun/src/noise/mod.rs:560-568 | The loss of one session is the packets that did not come over those expected |
| `Loss.VisitedBackwards` | boringtun/src/noise/mod.rs:552-580 | The ring is visited backwards from the current session, each slot once, across the wrap |
| `Tunnels.LiveTimers.Tick` | boringtun/src/noise/timers.rs:116-131 | Stamps one timer and sets the two wishes |
| `Tunnels.LiveTimers.Established` | boringtun/src/noise/timers.rs:133-142 | Stamps the slot and the role |
| `Tunnels.LiveTimers.Clear` | boringtun/src/noise/timers.rs:92-99 | All timers jump to the present, the wishes are dropped |
| `Tunnels.LiveTimers.constructor` | boringtun/src/noise/timers.rs:73-84 | New timers stand at zero |
| `Tunnels.LiveTunn.constructor` | boringtun/src/noise/mod.rs:202-232 | A new tunnel is the new tunnel of the model, with the shared limiter or one of its own |
| `Tunnels.LiveTunn.EncapsulatePacket` | boringtun/src/noise/mod.rs:258-276 | In-place form of encapsulation |
| `Tunnels.LiveTunn.DecapsulateDatagram` | boringtun/src/noise/mod.rs:284-310 | An empty datagram flushes; any other passes the limiter first, and one that does not pass leaves the tunnel untouched |
| `Tunnels.LiveTunn.HandleVerified` | boringtun/src/noise/mod.rs:312-324 | Dispatch over the four packets |
| `Tunnels.LiveTunn.HandleInit` | boringtun/src/noise/mod.rs:326-349 | In-place form of answering an initiation |
| `Tunnels.LiveTunn.HandleResponse` | boringtun/src/noise/mod.rs:351-377 | In-place form of completing a handshake |
| `Tunnels.LiveTunn.HandleCookie` | boringtun/src/noise/mod.rs:379-395 | In-place form of taking a cookie |
| `Tunnels.LiveTunn.UseSession` | boringtun/src/noise/mod.rs:398-411 | Moves the current index to a session at least as recent |
| `Tunnels.LiveTunn.HandleDataPacket` | boringtun/src/noise/mod.rs:414-437 | In-place form of receiving data, down to the bitmap of the session |
| `Tunnels.LiveTunn.FormatHandshakeInitiation` | boringtun/src/noise/mod.rs:441-468 | In-place form of starting a handshake |
| `Tunnels.LiveTunn.ValidateDecapsulated` | boringtun/src/noise/mod.rs:472-515 | In-place form of the IP check |
| `Tunnels.LiveTunn.SendQueued` | boringtun/src/noise/mod.rs:518-529 | In-place form of flushing one packet |
| `Tunnels.LiveTunn.QueuePacket` | boringtun/src/noise/mod.rs:532-538 | Queues unless full |
| `Tunnels.LiveTunn.RequeuePacket` | boringtun/src/noise/mod.rs:541-546 | Puts back unless full |
| `Tunnels.LiveTunn.DequeuePacket` | boringtun/src/noise/mod.rs:548-550 | Takes the head |
| `Tunnels.LiveTunn.SetStaticPrivate` | boringtun/src/noise/mod.rs:235-250 | A new key drops all sessions and replaces the limiter, by the shared one or one of its own |
| `SessionRings.SessionRing.constructor` | boringtun/src/noise/mod.rs:218-219 | A new ring is empty |
| `SessionRings.SessionRing.Create` | boringtun/src/noise/mod.rs:338-340 | A new session object with its own bitmap takes a slot; no other slot changes |
| `SessionRings.SessionRing.Drop` | boringtun/src/noise/timers.rs:161-167 | A slot is emptied; no other slot changes |
| `SessionRings.SessionRing.Clear` | boringtun/src/noise/timers.rs:147-149 | The loop that empties the ring |
| `SessionRings.SessionRing.Format` | boringtun/src/noise/session.rs:200-237 | Formatting on the session of a slot moves its counter in place and no other |
| `SessionRings.SessionRing.Receive` | boringtun/src/noise/session.rs:243-273 | Receiving on the session of a slot updates its bitmap in place, keeps the refinement of all eight bitmaps, and changes no other slot |
| `Tunnels.LiveTunn.GiveUpConnection` | boringtun/src/noise/timers.rs:146-154 | Expires the handshake, empties ring and queue |
| `Tunnels.LiveTunn.SweepSessions` | boringtun/src/noise/timers.rs:156-170 | The loop that drops over-age sessions and restarts their timers |
| `Tunnels.LiveTunn.InFlight` | boringtun/src/noise/timers.rs:218-239 | Give up, resend or wait |
| `Tunnels.LiveTunn.InitiationIsDue` | boringtun/src/noise/timers.rs:241-281 | Whether a handshake is due, with the wish it uses up; when that is, in seconds, is `Rekeying.UpdateDecides` |
| `Tunnels.LiveTunn.KeepaliveIsDue` | boringtun/src/noise/timers.rs:283-304 | Whether a keepalive is due, with what it uses up |
| `Tunnels.LiveTunn.WhenIdle` | boringtun/src/noise/timers.rs:240-314 | The decisions without a handshake in flight |
| `Tunnels.LiveTunn.AfterAdvance` | boringtun/src/noise/timers.rs:198-316 | The decisions once the clock is read |
| `Tunnels.LiveTunn.Update` | boringtun/src/noise/timers.rs:172-317 | In-place form of the whole timer step, with the reset of an own limiter; what it decides is `Rekeying.UpdateDecides` |
| `Tunnels.LiveTunn.EstimateLoss` | boringtun/src/noise/mod.rs:552-580 | The loss of this tunnel |
| `PeerIndex.IssuedDistinct` | boringtun/src/device/mod.rs:924-932 | Until its assertion fires the generator issues pairwise distinct 24-bit values, by injectivity of the shift step |
| `PeerIndex.IndexLfsr.Next` | boringtun/src/device/mod.rs:924-932 | Steps the register in place and stops when it comes round |
| `PeerIndex.IndexLfsr.constructor` | boringtun/src/device/mod.rs:936-943 | Starts at the seed |
| `PeerIndex.RepetitionReturnsToSeed` | boringtun/src/device/mod.rs:924-932 | Any repetition of the register implies that it passed its seed first |
| `PeerIndex.ShiftUndone` | boringtun/src/device/mod.rs:924-932 | A shift with the taps 0xd80000 can be undone |
| `PeerIndex.ScrambleUndone` | boringtun/src/device/mod.rs:924-932 | The value issued, unmasked and plus one, is the register |
| `AllowedIps.FindIsLongestMatch` | boringtun/src/device/allowed_ips.rs:60-62 | A lookup returns the entry of the longest network containing the address, or nothing when none does; what a network contains is `IpRanges.HoldsIff` |
| `IpRanges.LookupFinds` | boringtun/src/device/allowed_ips.rs:17-62 | For a table built by any sequence of entries, in terms of addresses as numbers: a lookup finds nothing exactly when no entry matches, and otherwise the longest match, the last one made among equals |
| `IpRanges.HoldsIff` | boringtun/src/device/allowed_ips.rs:50-62 | A network holds exactly the addresses of its family whose number agrees with its own after division by 2 to the number of host bits |
| `IpRanges.EndsOfTheRange` | boringtun/src/device/allowed_ips.rs:50-62 | A /32 or /128 holds one address, a /0 its whole family |
| `AllowedIps.LongestUnique` | boringtun/src/device/allowed_ips.rs:60-62 | There is only one such network |
| `AllowedIps.AllowedIpTable.Insert` | boringtun/src/device/allowed_ips.rs:50-57 | Insertion truncates the address and replaces an equal network |
| `AllowedIps.AllowedIpTable.Remove` | boringtun/src/device/allowed_ips.rs:64-66 | Removal drops exactly the matching entries |
| `AllowedIps.AllowedIpTable.Lookup` | boringtun/src/device/allowed_ips.rs:60-62 | The lookup of the object is that of the model; which entry that is, is `IpRanges.LookupFinds` |
| `AllowedIps.AllowedIpTable.Clear` | boringtun/src/device/allowed_ips.rs:46-48 | Clearing empties the table |
| `Device.Demultiplexing` | boringtun/src/device/mod.rs:646-658 | After any configuration history and any run of the tunnel of any peer ever created, every index it ever issued and every index it awaits packets for (ring sessions, initiations in flight, cookie replies) leads by its upper 24 bits to that peer while it is configured, and to none afterwards |
| `Device.RoutingAgreement` | boringtun/src/device/mod.rs:307-373 | After any history a longest-match hit is a live peer whose own table accepts the address, each network leads to the last peer given it if still live, and both peer tables hold the same peers |
| `Device.Run` | boringtun/src/device/mod.rs:303-373 | Every history keeps the invariant of the four tables and of the generator |
| `Configuration.TablesHoldSetup` | boringtun/src/device/mod.rs:303-373 | After every history the tables hold exactly the peers added and not removed since, each with the networks it was given; the program has stopped exactly when a known peer was added or the indices had run out |
| `Configuration.AllowedIff` | boringtun/src/device/peer.rs:154-156 | A peer accepts exactly the addresses that match, as numbers, one of those it was configured with |
| `Device.RemoveKeepsInv` | boringtun/src/device/mod.rs:307-320 | Removing a peer keeps the tables consistent |
| `Device.AddKeepsInv` | boringtun/src/device/mod.rs:323-373 | Adding a peer does; a known key, or a generator come round, stops the program |
| `Device.ClearKeepsInv` | boringtun/src/device/mod.rs:523-527 | Clearing does |
| `Devices.LiveDevice.Update` | boringtun/src/device/mod.rs:323-373 | In-place form of adding or removing a peer: the index draw, the missing key, the refusal of a known key |
| `Devices.LiveDevice.Enter` | boringtun/src/device/mod.rs:361-370 | In-place entry into the tables |
| `Devices.LiveDevice.EnterRoutes` | boringtun/src/device/mod.rs:367-370 | The loop that enters the networks of a peer |
| `Devices.LiveDevice.Remove` | boringtun/src/device/mod.rs:307-320 | In-place removal |
| `Devices.LiveDevice.ClearAll` | boringtun/src/device/mod.rs:523-527 | In-place clearing |
| `Devices.LiveDevice.PeerFor` | boringtun/src/device/mod.rs:655-657 | The lookup by the upper 24 bits |
| `Device.SetKeyKeepsInv` | boringtun/src/device/mod.rs:476-498 | A new key keeps the tables consistent; the limiter of the device and every configured peer use the key of the device |
| `Devices.LiveDevice.SetKey` | boringtun/src/device/mod.rs:476-498 | The key in use changes nothing; any other goes, with a limiter made for it, to the device and to the tunnel of every configured peer |
| `Devices.LiveDevice.Rekey` | boringtun/src/device/mod.rs:488-494 | The loop over the configured peers |
| `DevLock.LockSafety` | boringtun/src/device/dev_lock.rs:28-99 | For any number of threads and any schedule: one upgrader at a time; with the flag down nobody holds or awaits the write lock, so a reader never blocks on the inner lock while holding the mutex; the writer is alone; nothing is written between prep and mutation; nobody sleeps with the flag down |
| `DevLock.NoDeadlock` | boringtun/src/device/dev_lock.rs:60-99 | While a thread is inside a call some thread inside a call can move, or the one upgrader waits only for readers outside both calls; competing upgraders never block each other |
| `DevLock.StepKeepsInv` | boringtun/src/device/dev_lock.rs:28-99 | Every step of every thread keeps the invariant |
| `DevLock.VersionCountsWrites` | boringtun/src/device/dev_lock.rs:60-99 | Over every run the version compared is the number of times a thread left its mutation |
| `DevLock.MoverEffects` | boringtun/src/device/dev_lock.rs:60-99 | A step writes the value exactly on leaving the mutation, and takes its version exactly on entering prep |
| `DevLock.ReaderEnters` | boringtun/src/device/dev_lock.rs:28-58 | A reader gets in only while nobody writes or waits to |
| `DevLock.WriterEnters` | boringtun/src/device/dev_lock.rs:60-99 | A writer gets in only when no reader is left, and an upgrade starts only while no other is under way |
| `Crypto.LawfulSuiteExists` | boringtun/src/noise/handshake.rs:46-185 | The laws assumed of the primitives can be met |

## Left out

- Concrete BLAKE2s, X25519, ChaCha20-Poly1305 and random generation: library code, symbolic here.
- Sockets, tun devices, event polling, privilege dropping, signal handling and the command line: operating-system plumbing.
- The C, Java and UniFFI interfaces: thin forwarding.
- The text configuration protocol (boringtun/src/device/api.rs) and key text parsing (boringtun/src/serialization.rs): input and library parsing.
- The internals of the prefix trie: modelled as an abstract table with longest match.
- Endpoint and connected-socket management of a peer (boringtun/src/device/peer.rs:81-152): socket state.
- `dst_address`, `stats` and the time accessors: they would only add easy members.
- Floating-point rounding in the loss estimate: reals are used.
- The full period of the shift register: only distinctness before its assertion is used.
- A second clock reading inside one call, such as the one of `elapsed` in the retransmission check: one reading per call.
- Fairness and wake-up order of the upgrade lock: progress is stated as absence of deadlock.
- The table of allowed IPs that a device consults before writing to its interface is covered only through `Device.RoutingAgreement`, not composed with `TwoTunnels`.
- Sharing of one tunnel between threads: a tunnel is behind a lock in the program; the threads that share one session are those of `ReplayRuns` and `Link`.
- TwoTunnels.TunnelsEndToEnd: assumes of the two runs that no packet sealed under one of their keys opens under another and that different receiving sessions have different keys; with fixed key and tag sizes neither can hold of a cipher for all keys. The sender makes fewer than 2^64 calls.
- SenderCounters.SendingCountersDistinct: fewer than 2^64 calls, because the counter wraps (`Link.SendingCountersRepeatIff`).
- Nonces.NoncesNeverRepeat: fewer than 2^64 calls, for the same reason; that two sessions have different keys is a matter of the primitives.
- NoisePattern.InitiationFollowsPattern: the two precomputed hashes the handshake starts from are taken as the bytes in the source.
- Timestamps.StampBytes: until the 64-bit seconds wrap.
- RateLimiters.PeriodBounds: until the 64-bit period number wraps.
- Delivery.QueuedPacketsArrive: the three handshake messages arrive undisturbed; what interference can do to them is the subject of `KeyAgreement`.
- Device.Demultiplexing: tunnels run independently of the tables, so a history of the device is a history of the tables and a run of each tunnel.
- Devices.LiveDevice.SetKey: the tables record for which key a limiter was made and whether a peer shares it; the limiter itself is `RateLimiters.RateLimiter`, and what a tunnel does with a new key is `Tunnels.LiveTunn.SetStaticPrivate`.
- Link.EndToEndSafety: assumes that a datagram that opens under the receiving key was formatted by the peer session, and covers the first 2^64 packets.
- KeyAgreement.KeyAgreementOverRuns: the two parties keep their key pairs during the run; a change of the private key with initiations in flight is in `HandshakeRuns` and `TunnelRuns` only.
- Admission.AdmissionBound: covers runs in which the 64-bit message counter does not wrap.
- Admission.NoncesDistinct: covers runs in which the 64-bit nonce counter does not wrap.
- Conservation.ConservationOverRuns: byte counters are unbounded, not 64-bit; buffers obey the documented contract.
