# A verified model of the mev-commit node

mev-commit is a peer-to-peer node through which bidders send bids for transactions and
providers answer with signed preconfirmations that are stored on chain. This project models
the parts of the node that hold state or encode bytes, and proves what every step and every
whole run of them keeps.

The components, and the modules that model them:

* **Transactions.** `TxMonitor` is the receipt monitor: the nested table from nonce to hash to
  waiting channels, the batched receipt check and the shutdown drain, as the class `Monitor`.
  `EvmClient` is the sender, as the class `Client`. `Nonces` runs the sender through arbitrary
  failures and readings, `Fees` follows chains of cancellations, and `TxRuns` interleaves the
  sender, its background waiters, the monitor and the shutdown.
* **Peers.** `Topology` is the table of providers and bidders with its announcements, and
  `Announcements` runs any number of `Connected` calls against each other. `PeerRegistry` and
  `RegistryRuns` are the four maps of connected peers, `Handshake` and `HandshakeRuns` the
  two-party protocol, `Blocklist` the lazily pruned block map, `Libp2p` the code that ties
  them together, and `Membership` the order in which registry and topology learn of a peer.
* **Bids.** `Encoding`, `Digests` and `Signer` are the byte encodings, the EIP-712 digests and
  the signatures; `Eip712` is an independent encoder written from the standard. `Preconf` is
  the provider's pipeline, `ProviderService` and `ProviderRuns` the callbacks that carry the
  provider's decisions, `BidRuns` the two together, `Fanout` the bidder's workers and their channel, and `BidFlow` the whole
  way from the client's request to its replies.
* `Prelude`, `Channels` and `P2P` hold what the others share. A channel is a bounded queue that
  remembers what was sent (`Channels.BufferIsQueue`).

An object of the program that updates its fields is a class here, and each of its methods is
proved against a function of its old state. The machines that describe whole runs apply the
same functions, or are shown to agree with the methods step by step (`Nonces.SendInTwoHalves`,
`TxRuns.SendAgrees`, `TxRuns.CancelAgrees`, `TxRuns.ResumeAgrees`, `TxRuns.WaitAgrees`,
`TxRuns.WaiterAgrees`,
`HandshakeRuns.StepsOfHandle`, `HandshakeRuns.StepsOfHandshake`,
`Announcements.ConnectedAlone`, `ProviderRuns.StepsOfAnswer`, `ProviderRuns.StepsOfTimeOut`).
A step of a machine is one critical section of the code; the Ethereum node, the provider
process and the remote peer are arbitrary. Fields of a run that the program does not have, such
as the log of what the node said, are history and never influence a step.

## Where the code and its documentation differ

* `pkg/evmclient/evmclient.go:235` decides whether a transaction was cancelled by looking at
  the error of `watchTx`, which is nil at that point, instead of the error in the result. A
  cancelled transaction therefore never leaves the table of pending transactions. The model
  follows the code: `TxRuns.PendingExactly` says what the table holds,
  `TxRuns.IntendedExactly` when that is what was intended, and `TxRuns.CancelledIsNotCleared`
  gives a run in which it is not.
* The comment at `pkg/evmclient/evmclient.go:350` says that both fees of a cancellation are
  raised by a tenth. The tip is; the fee cap is raised by the new tip. `Fees.FeeCapTenthExactly`
  says when that amounts to a tenth, and `Fees.FeeCapTenthFails` gives fees for which it does
  not.
* `getNonce` takes a pending nonce of zero at its word (`pkg/evmclient/evmclient.go:161-164`).
  `Nonces.IncreasingExactly` says exactly which runs keep accepted nonces increasing, and
  `Nonces.StaleZeroRepeatsNonce` gives one that does not.
* The drain at `pkg/evmclient/txmonitor.go:89-101` closes channels without clearing the table,
  and nothing keeps a check from going on after it. `TxRuns.NoSendBlocks` says exactly when a
  notification then hits a closed channel, which panics, and `TxRuns.AnswerAfterDrain` gives a
  run that gets there; `TxMonitor.NotifyAfterDrain` says the same of the monitor alone.
* A second bid with the digest of a waiting bid takes over its callback
  (`pkg/rpc/provider/service.go:87`), and the timeout of a bid removes whatever callback its
  digest has, be it another bid's (`pkg/rpc/provider/service.go:96`).
  `ProviderRuns.SecondBidReplaces` and `ProviderRuns.TimeOutTakesAnother` show both;
  `ProviderRuns.ReplacedExactly` and `ProviderRuns.WrongedExactly` say exactly when either
  happens.
* A peer that disconnects after `addPeer` and before `Connected` or `AddPeers` stays in the
  topology (`pkg/p2p/libp2p/libp2p.go:234-241`): `Membership.RegisteredExactly` and
  `Membership.LateProviderStays`.

## Model

| member | source | states |
|---|---|---|
| TxMonitor.AddEntryFlat | pkg/evmclient/txmonitor.go:287-296 | filing a channel appends it to the list of its own nonce and hash, changes no other list and leaves no empty map or list |
| TxMonitor.RemoveEntryFlat | pkg/evmclient/txmonitor.go:210-213 | a deletion empties exactly one list, and the inner map goes with its last list |
| TxMonitor.FlatViewDetermines | pkg/evmclient/txmonitor.go:38 | without empty parts, the nested table is determined by its (nonce, hash, waiters) view |
| TxMonitor.WatchedValid | pkg/evmclient/txmonitor.go:287-303 | watching keeps the invariant that a channel is either listed and untouched or unlisted, sent one result and closed; the new channel is listed |
| TxMonitor.NotifiedValid | pkg/evmclient/txmonitor.go:196-214 | the invariant makes every send of a notification possible at once, none on a closed channel and none twice, and is kept |
| TxMonitor.NotifiedTouchesItsWaiters | pkg/evmclient/txmonitor.go:196-214 | a notification reaches exactly the listed channels of its nonce and hash |
| TxMonitor.CheckRefinesFlat | pkg/evmclient/txmonitor.go:216-281 | answering a snapshot entry by entry is one flat update: waiters whose entry drew a receipt or a not-found get exactly that answer and leave, all others keep channel, list and order, after any number of entries |
| TxMonitor.CheckByAnswer | pkg/evmclient/txmonitor.go:216-281 | after any number of entries, a pending waiter whose entry was reached is sent the receipt for a receipt and a cancellation for a not-found, its channel closed and its list gone; any other error, a missing result and an entry not reached leave its channel, list and place as they were |
| TxMonitor.CheckTellsTruth | pkg/evmclient/txmonitor.go:216-281 | with a node that answers each element by its hash, after a complete check every pending waiter below the confirmed nonce follows what is true of its own transaction |
| TxMonitor.SnapshotComplete | pkg/evmclient/txmonitor.go:216-230 | flattening the older transactions lists exactly the hashes watched below the confirmed nonce, each once if it is watched under one nonce |
| TxMonitor.ListOfItsOwn | pkg/evmclient/txmonitor.go:33-47 | a list of the table holds exactly the pending channels of its nonce and hash |
| TxMonitor.NotifyAfterDrain | pkg/evmclient/txmonitor.go:89-101 | after the drain a notification meets only open channels if and only if its transaction had no waiters left |
| TxMonitor.Monitor.WatchTx | pkg/evmclient/txmonitor.go:287-303 | returns a channel never handed out before and files it under its transaction |
| TxMonitor.Monitor.AllowNonce | pkg/evmclient/txmonitor.go:283-285 | a nonce is admitted if it is at most 1024 past the confirmed one; if that sum overflows, only nonces that are already confirmed are |
| TxMonitor.WindowExactly | pkg/evmclient/txmonitor.go:283-285 | of the nonces not yet confirmed, those up to 1024 past the confirmed one are admitted as long as the sum does not overflow 2^64, and none once it does |
| TxMonitor.Monitor.GetOlderTxns | pkg/evmclient/txmonitor.go:178-194 | lists, for exactly the nonces below the given one that have entries, exactly their hashes, each once |
| TxMonitor.Monitor.Notify | pkg/evmclient/txmonitor.go:196-214 | sends the result to every waiter of the transaction, closes it and drops the entry, with no send that could block |
| TxMonitor.Monitor.Flatten | pkg/evmclient/txmonitor.go:224-230 | the two loops over the older transactions produce a snapshot of what is watched below the confirmed nonce |
| TxMonitor.Monitor.AnswerBatch | pkg/evmclient/txmonitor.go:256-279 | the elements of the batch are answered in order, and what the call left in element i goes to the hash at `start+i` |
| TxMonitor.AnswersAligned | pkg/evmclient/txmonitor.go:246-261 | the reply read for the i-th entry of the snapshot is the one to the batch element that asks for the hash of that entry |
| TxMonitor.VerdictFaithful | pkg/evmclient/txmonitor.go:256-279 | if the node answers each element by the hash in it, every listed transaction gets what the node holds true of that very hash |
| TxMonitor.Monitor.Check | pkg/evmclient/txmonitor.go:216-281 | batches are the consecutive stretches of at most 64 hashes of the snapshot, the first failing call ends the check, and the state is that of the entries answered before it |
| TxMonitor.BatchesExactly | pkg/evmclient/txmonitor.go:233-238 | batch k is the stretch of 64 hashes that starts at 64k, and only the last one can be shorter |
| TxMonitor.Monitor.Drain | pkg/evmclient/txmonitor.go:89-101 | every listed channel is told once that the monitor closed, and the table stays as it is |
| EvmClient.Client.GetNonce | pkg/evmclient/evmclient.go:155-179 | an error or a zero reading leaves the nonce field alone; any other reading raises it to the larger of the two |
| EvmClient.Client.Send | pkg/evmclient/evmclient.go:181-222 | which of five failures or the success results, and what each leaves of nonce, table and waiters; a failure never touches the table |
| EvmClient.Client.CancelTx | pkg/evmclient/evmclient.go:320-384 | succeeds exactly for a pending transaction with a suggested tip that can be signed and is accepted; the new tip is the larger of old tip and suggestion plus a tenth, rounded down, the fee cap grows by it, and the same nonce is recorded under the new hash; which error each failure gives |
| EvmClient.Client.Resume | pkg/evmclient/evmclient.go:231-248 | a waiter clears its transaction if and only if it got a receipt |
| EvmClient.Client.WaitForReceipt | pkg/evmclient/evmclient.go:269-295 | only pending transactions can be waited for, and they are watched under their own nonce; a receipt is returned only if it was received, an error result and an ended context each as such |
| EvmClient.Client.PendingTxns | pkg/evmclient/evmclient.go:392-410 | the pending transactions, each once, sorted by nonce |
| Nonces.SendInTwoHalves | pkg/evmclient/evmclient.go:181-222 | the two steps of the run model compose to `Client.Send` |
| Nonces.IncreasingExactly | pkg/evmclient/evmclient.go:155-222 | over any run of sends with any readings and failures, accepted nonces strictly increase if and only if no acceptance acts on a zero reading, or follows nonce 2^64-1, when something had been accepted before |
| Nonces.StaleZeroRepeatsNonce | pkg/evmclient/evmclient.go:161-164 | a node that keeps reporting zero makes the sender use nonce 0 twice |
| Nonces.NoncesExplained | pkg/evmclient/evmclient.go:155-222 | unless a zero reading is acted on after the nonce field left zero, every accepted nonce was reported by the node on this or an earlier call or is one more than the previously accepted one |
| Nonces.InFlightBound | pkg/evmclient/txmonitor.go:283-285 | with growing confirmed nonces clear of 2^64, at most 1025 accepted transactions are at or above the confirmed nonce, in every run |
| Nonces.WindowFills | pkg/evmclient/txmonitor.go:283-285 | the bound is reached: 1025 sends in a row are accepted and the next is refused |
| Fees.ReplacementFees | pkg/evmclient/evmclient.go:337-363 | a cancellation has a fee cap of at least its tip and raises the fee cap by exactly its tip; that tip is a tenth over the suggestion if this is higher than the old tip, and otherwise a tenth over the old tip, rounded down |
| Fees.TipGrowsExactly | pkg/evmclient/evmclient.go:346-352 | the tip never falls, and rises if and only if the old tip reaches 10 wei or the suggestion is higher |
| Fees.FeeCapTenthExactly | pkg/evmclient/evmclient.go:350-352 | the fee cap rises by a tenth if and only if eleven times the suggestion or eleven times the old tip reaches ten times a tenth of the old fee cap, rounded up |
| Fees.FeeCapTenthFails | pkg/evmclient/evmclient.go:350-352 | concrete fees whose fee cap rises by less than a tenth |
| Fees.ChainGrows | pkg/evmclient/evmclient.go:320-384 | k cancellations of each other, from a tip t of at least 10 wei and whatever is suggested, raise the tip by at least k and the fee cap by at least kt + k(k+1)/2 |
| TxRuns.StepKeeps | pkg/evmclient/txmonitor.go:83-303 | every step of sender, waiters, checks and drain, the drain during a check included, keeps the joint invariant of the table of channels and the table of pending transactions, as long as it sends on open channels |
| TxRuns.SendAgrees | pkg/evmclient/evmclient.go:214-222 | the run model records an accepted transaction as `Client.Send` does |
| TxRuns.CancelAgrees | pkg/evmclient/evmclient.go:377-383 | a cancellation is possible in the run model whenever no send is under way, and recorded as `Client.CancelTx` does |
| TxRuns.ResumeAgrees | pkg/evmclient/evmclient.go:231-248 | a background waiter of the run model clears what `Client.Resume` clears |
| TxRuns.WaitAgrees | pkg/evmclient/evmclient.go:274-284 | waiting for a pending transaction is possible at any time and watches it under its own nonce, as `Client.WaitForReceipt` does |
| TxRuns.WaiterAgrees | pkg/evmclient/evmclient.go:225-231 | a background waiter watches its transaction under the accepted nonce and receives exactly what is sent on that channel |
| TxRuns.MonitorFree | pkg/evmclient/txmonitor.go:83-158 | a check can start whenever none is under way and end anywhere, the drain can come at any time, and other callers can receive on their own channels |
| TxRuns.NoSendBlocks | pkg/evmclient/txmonitor.go:89-101 | at any point of any run the next step sends without blocking and on open channels, unless it brings a receipt or a not-found, after the drain, for a transaction with a waiter from before it; then, and only then, it hits a closed channel |
| TxRuns.AnswerAfterDrain | pkg/evmclient/txmonitor.go:89-101 | a concrete run: the drain comes between the snapshot and the answers of a check, and any decisive answer then hits a closed channel |
| TxRuns.EveryChannelOnce | pkg/evmclient/txmonitor.go:178-303 | in every run every channel ever handed out is either untouched and listed, or was sent exactly one result and closed; that result is the shutdown's, or a receipt the node gave for that very hash, or a cancellation where the node answered not-found, asked when its nonce was confirmed; no map or list is empty |
| TxRuns.WatchedUnderOneNonce | pkg/evmclient/txmonitor.go:216-230 | in every run a hash is watched under one nonce only, so a check lists no hash twice |
| TxRuns.PendingExactly | pkg/evmclient/evmclient.go:218-253 | in every run a hash is in the pending table, under its accepted nonce, if and only if it was accepted and its waiter has not processed a receipt; a cleared one had a receipt from the node for that very hash |
| TxRuns.IntendedExactly | pkg/evmclient/evmclient.go:233-248 | cancelled transactions leave the pending table as intended if and only if no waiter ever processed a cancellation |
| TxRuns.CancelledStays | pkg/evmclient/evmclient.go:233-248 | a transaction whose cancellation was processed is listed as pending for ever after |
| TxRuns.CancelledIsNotCleared | pkg/evmclient/evmclient.go:235 | a concrete run after which a cancelled transaction is still listed |
| Topology.Topology.Add | pkg/topology/topology.go:97-109 | a peer is stored in the table of its type, and bootnodes in none |
| Topology.Topology.AddPeers | pkg/topology/topology.go:127-131 | adds exactly the given providers and bidders and announces nobody |
| Topology.Topology.Disconnected | pkg/topology/topology.go:111-125 | removes the peer from the table of its type and from no other |
| Topology.Topology.GetPeers | pkg/topology/topology.go:133-151 | returns exactly the stored peers of the type, each once |
| Topology.Topology.IsConnected | pkg/topology/topology.go:153-166 | an address is connected if and only if it is in either table |
| Topology.Topology.Connected | pkg/topology/topology.go:44-95 | afterwards exactly the new pairs of listener and peer info were announced: the newcomer heard of every other known provider in at most one message, and every bidder of a new provider in one each |
| Topology.ToldExactly | pkg/topology/topology.go:47-93 | who is told about whom, pair by pair: the newcomer about every other provider with a known underlay, and every bidder about a newcomer that is a provider with one |
| Announcements.ConnectedAlone | pkg/topology/topology.go:44-95 | a call that nothing interleaves with leaves the tables and makes exactly the announcements that `Topology.Connected` promises |
| Announcements.TablesFollow | pkg/topology/topology.go:97-131 | silent additions and disconnections are possible at any time and change the tables as `Topology.Add` and `Topology.Disconnected` do |
| Announcements.BidderLearnsProvider | pkg/topology/topology.go:44-109 | in every interleaving, once the calls for a bidder and a provider have both finished and neither disconnected since, one of these two calls has itself told the bidder about the provider, or attempted it and failed |
| Announcements.BidderIsTold | pkg/topology/topology.go:44-109 | if in these two calls the lookups of the provider and the broadcasts to the bidder succeed, one of them has told the bidder, whatever fails elsewhere |
| Announcements.ToldAboutProviders | pkg/topology/topology.go:46-93 | nobody is told about an address that never was a provider |
| Announcements.ToldWasSent | pkg/topology/topology.go:50-93 | whoever counts as told was sent a broadcast that went through, and what counts as a fault is a lookup or a broadcast that failed |
| PeerRegistry.AddAgreesExactly | pkg/p2p/libp2p/peers.go:75-92 | adding a peer keeps the four maps consistent if and only if its address and its peer ID are both registered or both new |
| PeerRegistry.ConnGoneAgrees | pkg/p2p/libp2p/peers.go:49-73 | a closed connection keeps the maps consistent; the peer leaves exactly if it was its last one |
| PeerRegistry.StreamAgrees | pkg/p2p/libp2p/peers.go:136-167 | tracking and dropping a stream keep the maps consistent |
| PeerRegistry.LookupsAgree | pkg/p2p/libp2p/peers.go:109-123 | looking a peer up by address and by peer ID give the same pairs |
| PeerRegistry.Registry.AddPeer | pkg/p2p/libp2p/peers.go:75-92 | the connection is tracked in any case; a known address changes nothing else and is reported, a new one enters the other three maps, with an empty table of streams |
| PeerRegistry.Registry.Disconnected | pkg/p2p/libp2p/peers.go:49-73 | never meets a missing overlay; when the last connection goes, the peer leaves all four maps, each of its cancel functions is invoked once and the callback is made once; otherwise only the connection goes |
| PeerRegistry.Registry.AddStream | pkg/p2p/libp2p/peers.go:136-149 | the cancel function is recorded if and only if the peer is registered |
| PeerRegistry.Registry.RemoveStream | pkg/p2p/libp2p/peers.go:151-167 | a recorded stream's cancel function is invoked once and forgotten; any other call does nothing |
| PeerRegistry.Registry.IsConnected | pkg/p2p/libp2p/peers.go:169-180 | in consistent maps the second lookup never fails, and the result agrees with the lookups by ID and by address |
| RegistryRuns.StepsFollow | pkg/p2p/libp2p/peers.go:49-167 | the steps of the run model are possible whenever the methods of `Registry` can be called for them, and leave the maps, cancel functions and callbacks as those ensure |
| RegistryRuns.AgreeExactly | pkg/p2p/libp2p/peers.go:49-92 | the four maps agree throughout a run if and only if no peer comes in under an address that is registered for another peer ID |
| RegistryRuns.InjectiveNeverClashes | pkg/p2p/libp2p/peers.go:75-92 | which never happens if no two of the peer IDs added in the run share an address |
| RegistryRuns.RegistryConserved | pkg/p2p/libp2p/peers.go:49-92 | in every run without such a clash every registered peer has the address of its ID, and the `addPeer` calls that returned false are the live peers plus the callbacks made |
| RegistryRuns.RegisteredWhileOpen | pkg/p2p/libp2p/peers.go:49-92 | in every such run a peer is registered if and only if one of its own connections was added and has not closed since |
| RegistryRuns.CancelledOnce | pkg/p2p/libp2p/peers.go:49-92 | in every such run a recorded cancel function is in the table if and only if it has not been invoked, and is invoked at most once |
| P2P.TypeRoundTrip | pkg/p2p/p2p.go:14-60 | a peer type survives being spelled out and parsed, and is spelled as the protocol has it |
| Handshake.CheckReq | pkg/p2p/libp2p/internal/handshake/handshake.go:86-117 | a request is accepted if and only if its signature is by the address of the peer ID and, for a provider, that address is registered; otherwise exactly which check gives which error |
| Handshake.Service.New | pkg/p2p/libp2p/internal/handshake/handshake.go:46-69 | without a signature there is no service; otherwise the request sent to every peer carries the type and the passcode, signed so that whoever recognises this node's signatures accepts it |
| Handshake.Service.Handle | pkg/p2p/libp2p/internal/handshake/handshake.go:158-203 | the responder returns a peer if and only if the request is accepted and answered and it is itself acknowledged by its own address and type; the peer has the address of its ID and is a provider only if registered; what was written and read, and which error otherwise |
| Handshake.Service.Handshake | pkg/p2p/libp2p/internal/handshake/handshake.go:205-248 | the same for the initiator, which returns only after writing its acknowledgement; which error each failure gives |
| HandshakeRuns.StepsOfHandle | pkg/p2p/libp2p/internal/handshake/handshake.go:158-203 | the responder of the run model, fed any messages, honest or not, returns when `Handle` does, the same peer, having read and written the same messages |
| HandshakeRuns.StepsOfHandshake | pkg/p2p/libp2p/internal/handshake/handshake.go:205-248 | the initiator of the run model agrees with `Handshake` in the same way |
| HandshakeRuns.WrongAckFails | pkg/p2p/libp2p/internal/handshake/handshake.go:146-156 | a side that is acknowledged under another address or as another type never returns, whatever else it is sent |
| HandshakeRuns.NoDeadlock | pkg/p2p/libp2p/internal/handshake/handshake.go:158-248 | for two honest sides, in every interleaving some step is possible until both have returned or failed, and there are at most ten steps |
| HandshakeRuns.HandshakeExactly | pkg/p2p/libp2p/internal/handshake/handshake.go:158-248 | a finished run of honest sides ends with both holding the other's address and type if each accepts the other, and otherwise with both failed |
| HandshakeRuns.ResponderLast | pkg/p2p/libp2p/internal/handshake/handshake.go:186-248 | the responder returns only after the initiator verified it and wrote its acknowledgement |
| Blocklist.Blocks.BlockPeer | pkg/p2p/libp2p/blocklister.go:16-25 | the latest block of a peer replaces an earlier one |
| Blocklist.Blocks.IsBlocked | pkg/p2p/libp2p/blocklister.go:27-40 | a peer is blocked while its entry is permanent or not past its end, and an entry found past its end is removed |
| Blocklist.Blocks.BlockedPeers | pkg/p2p/libp2p/blocklister.go:42-68 | lists only peers that were listable when it began, with their reason and, unless blocked for good, the time left at some moment of the call; and every one that still is listable when it ends and whose address can be derived |
| Blocklist.AnswersMatchLog | pkg/p2p/libp2p/blocklister.go:16-40 | over any run of blocks and questions with a forward clock, the pruned map answers that a peer is blocked if and only if its latest block in the event log is permanent or not past its end |
| Blocklist.ListingMatchesLog | pkg/p2p/libp2p/blocklister.go:42-68 | a peer is listable if and only if the log blocks it and it is not the exact instant of expiry |
| Libp2p.Node.Block | pkg/p2p/libp2p/libp2p.go:223-230 | which failed handshakes block the other side, for how long and why |
| Libp2p.Node.HandleConnectReq | pkg/p2p/libp2p/libp2p.go:213-245 | a bad signature and a foreign address block the peer for good, a provider without stake for two minutes, nothing else blocks; a refused peer enters neither registry nor topology; an accepted one is registered, and if and only if its address was new the topology stores it and makes the announcements of `Connected` |
| Libp2p.Node.Connect | pkg/p2p/libp2p/libp2p.go:390-437 | a registered peer is returned without a handshake; otherwise success registers the peer of that ID and failure only blocks, for good on a bad signature or a foreign address and for five minutes without stake |
| Membership.RegisteredExactly | pkg/p2p/libp2p/libp2p.go:234-251 | throughout a run every peer of the topology is registered, if and only if no peer enters the topology after it has left the registry |
| Membership.LateProviderStays | pkg/p2p/libp2p/libp2p.go:234-241 | a concrete run after which the topology holds a provider that is no longer connected |
| Membership.OtherTypeEnters | pkg/p2p/libp2p/libp2p.go:429-436 | a concrete run in which a connected bidder that presents itself as a provider when it is found again enters the topology as one |
| Membership.StoredUntilItLeaves | pkg/topology/topology.go:111-125 | a stored peer goes only with a disconnection of its own |
| Membership.EnterFollows | pkg/topology/topology.go:97-109 | entering does to the stored peers what `Topology.Add` does to the tables |
| Membership.LeaveFollows | pkg/topology/topology.go:111-125 | leaving does to them what `Topology.Disconnected` does |
| Encoding.BigEndianInjective | pkg/signer/preconfsigner/signer.go:208-215 | fixed-width big-endian encoding loses nothing below 256^width |
| Encoding.WordSpells | pkg/signer/preconfsigner/signer.go:209-215 | read with its first byte the most significant, the word of an integer spells that integer modulo 2^256 |
| Encoding.WordOfInt64Injective | pkg/signer/preconfsigner/signer.go:213-215 | the words of two 64-bit integers, negative ones included, are equal only for equal integers |
| Encoding.HexInjective | pkg/signer/preconfsigner/signer.go:250-251 | hexadecimal encoding of byte strings is injective |
| Encoding.HexAt | pkg/signer/preconfsigner/signer.go:250-251 | each byte becomes two lower-case digits, the high one first |
| Encoding.ParseDecimal | pkg/signer/preconfsigner/signer.go:195-198 | a decimal numeral behind any zeros and an optional sign is read as its number |
| Encoding.ParsedExactly | pkg/signer/preconfsigner/signer.go:195-198 | and nothing else is read as an amount |
| Encoding.JoinSplit | pkg/rpc/bidder/service.go:85 | joining the split list gives the string back, always |
| Encoding.SplitJoinExactly | pkg/rpc/bidder/service.go:67-85 | splitting at commas undoes joining if and only if the list is non-empty and its strings are comma-free |
| Digests.BidDigestBinds | pkg/signer/preconfsigner/signer.go:182-222 | equal bid digests mean equal transaction hashes, amounts modulo 2^256, block numbers and decay times, or one of three named pairs of preimages is a collision |
| Digests.CommitmentDigestBinds | pkg/signer/preconfsigner/signer.go:225-266 | equal commitment digests also mean equal bid digests and bid signatures, a missing one counting as empty, or one of five named pairs is a collision |
| Digests.DomainsSeparate | pkg/signer/preconfsigner/signer.go:182-266 | a bid digest equal to a commitment digest yields a collision of the raw data, of the two domains or of the two names |
| Eip712.TypeStrings | pkg/signer/preconfsigner/signer.go:182-266 | the type strings in the code are what the encodeType rule of EIP-712 makes of the member lists |
| Eip712.BidDigestConforms | pkg/signer/preconfsigner/signer.go:182-222 | the bid digest is the EIP-712 digest of the bid's terms in the domain PreConfBid, version 1 |
| Eip712.CommitmentDigestConforms | pkg/signer/preconfsigner/signer.go:225-266 | the commitment digest is the EIP-712 digest of the terms with the bid's digest and signature in hexadecimal, in the domain PreConfCommitment |
| Signer.ShiftUndone | pkg/signer/preconfsigner/signer.go:72-74 | V goes out as 27 for 0 and 28 for 1 and is read back the other way round; the shift is undone on verification, and no other value or byte changes |
| Signer.PrivateKeySigner.ConstructSignedBid | pkg/signer/preconfsigner/signer.go:41-78 | succeeds exactly for a named transaction, an integer amount and a block number other than zero, and which error otherwise; the signature buffer changed in place ends as the outgoing form of the signature over the digest |
| Signer.PrivateKeySigner.ConstructPreConfirmation | pkg/signer/preconfsigner/signer.go:80-108 | only a verified bid is committed to, and the bid is carried unchanged |
| Signer.PrivateKeySigner.VerifyBid | pkg/signer/preconfsigner/signer.go:110-125 | which inputs give a missing-field, an amount and a digest error, and the address otherwise; normalising V happens in a copy |
| Signer.PrivateKeySigner.VerifyPreConfirmation | pkg/signer/preconfsigner/signer.go:129-145 | its own digest and signature are looked for first, then the bid inside is verified, then the commitment, each with its own error |
| Signer.PrivateKeySigner.EipVerify | pkg/signer/preconfsigner/signer.go:147-178 | the in-place normalisation reads V as 0 or 1 and leaves the caller's signature alone |
| Signer.VerifiedExactly | pkg/signer/preconfsigner/signer.go:110-178 | a commitment verifies as a provider's if and only if both digests are the hashes of what they come with, the outer signature vouches for the outer digest under that address, and the inner one for the inner digest under some address |
| Signer.VerifiedBidWasSigned | pkg/signer/preconfsigner/signer.go:110-178 | if signatures cannot be forged, a verified bid was signed over the digest of its terms by a key of the address returned |
| Signer.SigningExactly | pkg/signer/preconfsigner/signer.go:41-78 | signing succeeds exactly for a named transaction, an integer amount and a block number other than zero; the result carries the terms as given, the digest of those terms and the key's signature over it |
| Signer.SignedBidVerifies | pkg/signer/preconfsigner/signer.go:41-125 | signing then verifying returns the bidder's address and leaves the terms as given |
| Signer.PreConfirmationVerifies | pkg/signer/preconfsigner/signer.go:80-145 | a provider commits to a bid if and only if it verifies, and the commitment then verifies as the provider's with the bid unchanged |
| Signer.VerifiedCommitmentBinds | pkg/signer/preconfsigner/signer.go:129-145 | two verified commitments with one digest carry the same bid, short of a named collision |
| Preconf.CastsLossless | pkg/contracts/preconf/preconf.go:70-79 | for a bid that passed validation, every number stored as uint64 equals the word the signed digest covers |
| Preconf.AmountCastExactly | pkg/contracts/preconf/preconf.go:70-79 | the stored amount is the amount modulo 2^64, whatever its sign and size, and storing it is lossless if and only if it is at least 0 and below 2^64 |
| Preconf.ValidBidExactly | rpc/providerapi/v1/providerapi.proto:111-149 | the bids that pass validation are exactly those with a comma-separated list of 64-digit hexadecimal hashes, a positive decimal amount below 2^64, positive block number and decay times and a digest of 1 to 64 bytes |
| Preconf.Handler.HandleBid | pkg/preconfirmation/preconfirmation.go:182-252 | the effects of handling one bid are those of the pipeline, in its order, and the method tells whether a preconfirmation was revealed |
| Preconf.StagesInOrder | pkg/preconfirmation/preconfirmation.go:182-252 | however far a bid gets, no stage is skipped, repeated or out of turn, and only a verified, valid bid of a bidder with allowance reaches the provider |
| Preconf.ReachesExactly | pkg/preconfirmation/preconfirmation.go:182-252 | which stage a bid reaches, in both directions, stage by stage |
| Preconf.RevealedExactly | pkg/preconfirmation/preconfirmation.go:182-252 | a preconfirmation is revealed if and only if it is the one signed for the received bid, that bid is verified, valid, from a bidder with allowance and accepted, and the commitment can be stored |
| Preconf.CommitBeforeReveal | pkg/preconfirmation/preconfirmation.go:182-252 | a preconfirmation is written at most once, last, and only after a verified signature, an allowance, an acceptance and a stored commitment |
| Preconf.StoredAsSigned | pkg/preconfirmation/preconfirmation.go:228-247 | what is stored on chain is the revealed commitment: its signatures and hash list, and numbers equal to the signed words |
| BidRuns.RevealedWasAccepted | pkg/preconfirmation/preconfirmation.go:216-247 | in every interleaving of registrations, hand-offs, timeouts and responses, a preconfirmation is revealed only if the provider sent an acceptance for the digest of the very bid it carries |
| BidRuns.AcceptanceNotReused | pkg/preconfirmation/preconfirmation.go:216-247 | at most as many preconfirmations are revealed for a digest as acceptances were sent for it |
| BidRuns.CommittedToWhatWasSeen | pkg/preconfirmation/preconfirmation.go:199-247 | whatever verified bid the provider saw under the accepted digest, it has the terms of the bid committed to, or a named pair of preimages collides |
| Fanout.EmittedAreVerified | pkg/preconfirmation/preconfirmation.go:102-175 | in every interleaving at most one preconfirmation per provider is emitted, each of which verifies as its provider's; the consumer receives them in order, and all of them by the end of its loop |
| Fanout.WorkersFree | pkg/preconfirmation/preconfirmation.go:104-166 | while it talks, a worker may fail at any time or come to hold any preconfirmation that verifies, and it may give up once the context is cancelled |
| Fanout.EmissionsConserved | pkg/preconfirmation/preconfirmation.go:150-175 | what is on the channel is exactly what the workers held when they sent it, in that order, each worker at most once and only what it verified; a consumer whose loop has ended received exactly that |
| Fanout.EveryProviderHeard | pkg/preconfirmation/preconfirmation.go:102-175 | if no worker fails or is cancelled, the consumer gets exactly one answer from each of the n providers |
| Fanout.SendsNeverBlock | pkg/preconfirmation/preconfirmation.go:102-175 | a worker with an answer can always send at once, and the channel is closed only after the last worker ended |
| Fanout.ClosedOnce | pkg/preconfirmation/preconfirmation.go:169-172 | when the closer gets to it the channel is open and every worker has ended, and once it is closed the closer is done |
| Fanout.LoopTerminates | pkg/rpc/bidder/service.go:82-101 | once the workers have ended, the closer or the consumer has a next step until the loop is over |
| Fanout.RemainingShrinks | pkg/rpc/bidder/service.go:82-101 | each of those steps brings the end nearer by one |
| BidFlow.Drain | pkg/rpc/bidder/service.go:82-101 | one reply for each preconfirmation, in order, with its terms and provider, until the client is gone |
| BidFlow.Receive | pkg/preconfirmation/preconfirmation.go:150-157 | a worker passes on exactly the preconfirmations that verify, with the signer's address |
| BidFlow.EndToEnd | pkg/rpc/bidder/service.go:51-101 | between honest parties with an ideal signature scheme, the reply carries the client's own hash list, amount, block and decay times, the provider's own address, and in hexadecimal the digests and the two parties' signatures over them |
| BidFlow.HonestBidIsAnswered | pkg/preconfirmation/preconfirmation.go:182-252 | a valid honest bid with allowance that is accepted and can be stored is answered |
| ProviderService.FirstStatusWins | pkg/rpc/provider/service.go:128-161 | a batch of responses gives every waiting bid the first status for its digest and touches no other |
| ProviderService.Service.ProcessBid | pkg/rpc/provider/service.go:67-106 | a bid is registered before the provider sees it; an invalid one changes nothing, and one not taken in time removes whatever callback its digest has |
| ProviderService.Service.SendProcessedBids | pkg/rpc/provider/service.go:128-161 | serves exactly the responses before the first one that neither accepts nor rejects, with no send that could block, and their effect is that of answering them in order |
| ProviderRuns.StepsOfAnswer | pkg/rpc/provider/service.go:142-153 | taking a callback out and then calling it, with nothing between, is one serial answer |
| ProviderRuns.StepsOfTimeOut | pkg/rpc/provider/service.go:86-100 | registering then timing out, or handing off, leaves what `ProcessBid` leaves |
| ProviderRuns.ReceiveTakes | pkg/preconfirmation/preconfirmation.go:220-224 | the handler of a bid may receive at any time and takes the oldest status |
| ProviderRuns.OneStatusEach | pkg/rpc/provider/service.go:67-161 | in every interleaving a response channel gets at most one status, is closed exactly when it has it, and the status was sent for that bid's digest |
| ProviderRuns.CallsReady | pkg/rpc/provider/service.go:87-90 | no callback ever blocks or hits a closed channel |
| ProviderRuns.HandedOffConserved | pkg/rpc/provider/service.go:67-161 | a bid handed to the provider is in exactly one place: in the table, about to be answered, answered, or replaced through another bid with its digest |
| ProviderRuns.SecondBidReplaces | pkg/rpc/provider/service.go:86-91 | a second bid with the digest of a waiting one makes the first unanswerable for good |
| ProviderRuns.TimeOutTakesAnother | pkg/rpc/provider/service.go:94-97 | a concrete run: the timeout of an answered bid removes the callback of a later bid that the provider already has |
| ProviderRuns.ReplacedExactly | pkg/rpc/provider/service.go:86-97 | no callback is ever replaced, if and only if no registration finds its digest in the table and no timeout finds another bid's callback under its own digest |
| ProviderRuns.WrongedExactly | pkg/rpc/provider/service.go:86-97 | a bid that has not timed out becomes unanswerable at some moment of a run, if and only if one of these two collisions occurs in it |
| ProviderRuns.NothingLost | pkg/rpc/provider/service.go:67-161 | without such a collision every bid handed over is in the table, about to be answered, or answered |
| ProviderRuns.ResponsesNotReused | pkg/rpc/provider/service.go:128-161 | no response is used twice: for every digest and status, at most as many bids were given it as the provider sent |
| ProviderRuns.DistinctNeverReplaced | pkg/rpc/provider/service.go:67-161 | a sufficient condition on digests alone: while digests in flight are distinct, no callback is ever replaced |

## Left out

- TxRuns.PendingExactly: assumes that the node never accepts the same hash twice, since the table is keyed by hash.
- TxMonitor.Monitor.Check: claims nothing about when a check happens; `watchLoop` drops an update while the checker is busy, so a waiter may wait for a later block.
- Nonces.InFlightBound: counts transactions sent with `Send`; cancellations reuse a nonce and do not go through the window test.
- Announcements.BidderLearnsProvider: a broadcast that fails is only logged by the code, so the announcement is then recorded as a fault; whether the remote peer acts on a message is not part of this model.
- HandshakeRuns.HandshakeExactly: streams do not fail by themselves; a failing side resets its stream, which may lose messages under way. `Handshake.Service.Handle` covers failing reads and writes.
- RegistryRuns.CancelledOnce: every stream has a cancel function of its own and is handled once, as the stream handlers see to.
- RegistryRuns.RegistryConserved: assumes a run without a clash of addresses, as `RegistryRuns.CancelledOnce` and `RegistryRuns.RegisteredWhileOpen` do; `RegistryRuns.AgreeExactly` says that this is exactly what the maps need.
- Signer.PrivateKeySigner.EipVerify: signatures of fewer than 65 bytes are excluded, since the code panics on them when it reads byte 64.
- Blocklist.Blocks.BlockedPeers: the time left is a number instead of a formatted string.
- Preconf.Handler.HandleBid: its last effect is the attempt to write the preconfirmation, whether or not the stream takes it; a timeout of the decision and a missing answer are one case.
- BidFlow.EndToEnd: the bidder's node does not compare the bid it gets back with the one it sent, so honesty of the provider is a hypothesis.
- Keccak, ECDSA recovery and verification, key storage and address derivation are arbitrary functions; only the sign-then-recover law is assumed, and only where a lemma says `Ideal`. Keccak is never assumed injective.
- Hashes, Ethereum addresses, peer IDs, connections and streams are identities without structure; channel identities are the order of their creation.
- Go map iteration is `Prelude.Range`: every key once, in any order.
- Goroutines, contexts, tickers, RPC and gRPC calls, stake and allowance lookups are steps of a machine or inputs of a method. A write and its length limits on a stream are a count of writes that succeed.
- The interleavings are modelled on values: the machines apply the functions that the class methods are proved against, and do not share objects.
- Logging and metrics, including the log line at `pkg/evmclient/evmclient.go:250` and the topology gauges, which are not the sizes of the maps.
- `removePeer` and `getPeers` of the registry, which are unused.
- `TraceTransaction` during a check, which only feeds a log line.
- Stream headers, protocol version matching, dialling and the peer store in `pkg/p2p/libp2p`; the connection gater's rate limiter.
- `pkg/discovery`: its own limit on concurrent dials adds little to what its library promises.
- The other contract wrappers, the CLI, the API servers, the bootstrap loops and the examples: plumbing around the modelled parts.
- The remaining RPC methods for stakes and allowances, and the length limit of gRPC messages.
