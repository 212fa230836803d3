# Verified model of a peer-to-peer library

The library connects peers over authenticated channels, gossips content between them and keeps
a routing table of the peers it knows. Its hard parts are small concurrent state machines. Each
is modelled here twice: as **code** (classes, methods and loops that follow the source section
by section) and as a **transition system** over explicit state, in which every section that the
source runs under a mutex is one step and goroutines interleave freely. The theorems quantify
over every run, every interleaving, or every input.

| file | what it models |
|---|---|
| `Once.dfy`, `Identity.dfy` | the Once handshake of two peers with any number of concurrent connections |
| `SyncFilter.dfy` | reference-counted allowances for synchronisation messages |
| `Gossip.dfy`, `GossipPeer.dfy`, `GossipHandlers.dfy` | push, pull and sync over N peers, with timers, Sync callers, loss and reordering |
| `GossipSafety.dfy`, `GossipAllowances.dfy`, `GossipMemory.dfy`, `GossipTermination.dfy` | what the network keeps: integrity, allowances, answers and subnets over runs, termination |
| `GossipRuns.dfy` | runs of two peers that show what can happen |
| `BigEndian.dfy`, `Framing.dfy`, `Connection.dfy` | length-prefixed, sealed frames and the reading side of a channel |
| `ReadControl.dfy`, `ReaderSwitch.dfy` | the control flow of a reader and its four exits; replacing readers |
| `WriteLoop.dfy`, `Inbound.dfy`, `EndToEnd.dfy` | the writing side over failing and replaced connections; readers beside each other; both sides together |
| `Distance.dfy`, `Table.dfy`, `InMemTable.dfy` | XOR distance and the sorted routing table with expiry and sampling |
| `DoubleCache.dfy` | the two-generation content cache |
| `RefCounts.dfy`, `Client.dfy`, `ClientHistory.dfy`, `Receivers.dfy` | shared channels held by links, sends and accepted connections; handing a message to receivers |
| `Policy.dfy`, `PolicyMachine.dfy`, `PolicyRefinement.dfy` | trees of All, Any, Max and RateLimit and their cleanups |
| `Base64.dfy`, `Address.dfy` | addresses as text |
| `Ecies.dfy` | big integers as 32 bytes |
| `Bytes.dfy`, `ContentTypes.dfy`, `Integers.dfy`, `Wrappers.dfy` | types and operators shared by the others |

## Main results

- **Once**: in every interleaving each accepted connection that is not closed is the pool entry
  or is about to be closed by exactly one handler; once all handlers have returned, at most one
  connection of the pair is open; the lesser peer keeps only what the greater one announced; and
  which connection survives is read off the order of acceptances and of obeyed verdicts.
- **Gossip**: all content anywhere in the network was put in by an application under that
  identifier; filter counts are exactly the outstanding timers and Sync calls; every insertion
  has a filter check of its own; and a flood ends after a number of steps bounded by an explicit
  measure of the state that it starts in, in a state with no message, timer, subnet, allowance
  or pending entry left over.
- **Channels**: for every schedule of faults and replacements each message is flushed exactly
  once, in order, and a working connection gets all of them out; whatever prefix of the bytes
  arrives, the reader delivers exactly the complete leading messages; over all connections
  together, when what was flushed arrives, nothing is left out and only what failed on a
  connection may be repeated; quit and drain channels are used once.
- **Table**: after every run the list is the unique sorted list of the map's keys, so `Peers(n)`
  are the n closest.
- **Reference counts, policies, cache, text and number formats**: counters equal what is held,
  cleanups undo calls, caching is transparent, and printing reads back.

## Where the code does less than it promises

For each of these the lemmas named show inputs or a run on which the property fails, and say
exactly when it holds.

- `DeletePeer` of an absent peer removes its predecessor from the list
  (`Table.AbsentDeleteBreaksTable`), unless no peer is closer (`Table.DeleteKeepsInvIff`).
- An unmatched `Deny` stores a negative count and leaves the key present, although its comment
  says that it does nothing (`SyncFilter.UnmatchedDenyLetsPass`,
  `SyncFilter.PresentWhilePositiveIffMatched`).
- Verdicts of Once handled out of order can leave the pair with no connection
  (`Once.OutOfOrderLeavesNone`); a connection survives exactly when the latest acceptance is the
  one obeyed last (`Once.SurvivesIffLatestObeyedLast`, `Once.InOrderSurvivorIff`).
- A failed keep-alive write closes whatever entry is current and panics when there is none
  (`Once.SecondRecoveryFindsNoEntry`); whether there is one, and whether it is the handler's own,
  depends on the latest event at that peer (`Once.RecoveryFindsEntryIff`).
- A push handler stores the subnet before it allows the content
  (`GossipRuns.SubnetCanPrecedeAllowance`); that is the only window in which a subnet is
  remembered without an allowance (`GossipSafety.FilterCountsAllowances`).
- A stored subnet can be lost to the timer of an earlier push for the same content, within that
  window (`GossipRuns.StoredSubnetCanBeForgotten`) or later, and content is then inserted and not
  passed on (`GossipRuns.InsertedWithoutSubnet`); it is remembered exactly as long as no timer
  for it runs out (`GossipMemory.SubnetIsRememberedIff`, `GossipMemory.PushIsPassedOnIff`).
- The gossiper queries the resolver and inserts separately, and applications insert in between:
  what they inserted is replaced (`GossipRuns.GossipCanReplaceAnAnswer`), exactly when a handler
  is past its query with another content (`GossipMemory.AnswerIsReplacedIff`).
- A reader that is replaced goes on beside its successor, so that messages can be received out of
  the order of connections (`Inbound.LaterCanComeFirst`), exactly when one has not stopped before
  the next delivers (`EndToEnd.ReceivedInOrderIff`).
- The gossiper checks the filter and inserts in separate sections, so a timeout in between lets
  content in with no allowance left (`GossipRuns.InsertionCanFollowDeny`), exactly when the
  Denies since the check use up every allowance (`GossipAllowances.InsertionIsAllowedIff`).
- A frame within 16 bytes of the maximum size can be written and never read
  (`Framing.LargeMessageIsUnreadable`, `Framing.IntactStreamDeliversAllIffReadable`).
- An oversized re-insert leaves the older content in the cache
  (`DoubleCache.OversizedReinsertIsShadowed`, `DoubleCache.InsertStaysTransparentIff`).
- An unlinked send may find that its channel is already gone (`RefCounts.SendCanMissItsChannel`),
  exactly when the channel was without a holder at some point since
  (`RefCounts.SendFindsItsChannelIff`).
- `RateLimit` is bounded only for a capacity of at least two (`Policy.RateLimitIsBoundedIff`), and
  a call does not renew the limiter of an address of the older generation: a newcomer may drop it
  right after (`Policy.CallDoesNotRenew`), exactly as `Policy.LimiterIsKeptIff` says.
- `paddedTo32` does not refuse numbers from 2^256 up to 2^263, and truncates them
  (`Ecies.PaddedReadsBackIff`).
- An address whose value contains a slash, or whose protocol has no name, prints but does not
  read back (`Address.PrintedReadsBackIff`).

## Model

| member | source | states |
|---|---|---|
| `Identity.CompareIsAntisymmetric` | handshake/once.go:60-64 | the two ends see opposite orders, equal only for equal identities, so exactly one of two peers decides |
| `Identity.CompareIsNumeric` | handshake/once.go:60-64 | identities compare as the 256-bit numbers that their bytes spell |
| `Once.AcceptedIsEntryOrHeldOnce` | handshake/once.go:53-126 | in every interleaving, an accepted connection that is not closed is the pool entry or is about to be closed by exactly one handler, never both |
| `Once.QuiescentAtMostOneOpen` | handshake/once.go:53-126 | when all handlers have returned, any two connections that neither end closed are the same one, and it is the pool entry |
| `Once.LesserKeepsOnlyAnnounced` | handshake/once.go:64-82 | what the lesser peer keeps was accepted and announced by the greater peer; of these exactly its entry is unclosed |
| `Once.AcceptancesAreSpaced` | handshake/once.go:87-93 | acceptances with no failed keep-alive write between them are more than the minimum age apart |
| `Once.AcceptsIffNoneRecent` | handshake/once.go:87-93 | in every reachable state a decision accepts if and only if no acceptance of at most the minimum age stands without a failed announcement since, and otherwise refuses |
| `Once.InOrderKeepsLatest` | handshake/once.go:73-81 | handled in issue order, the lesser pool holds the latest acceptance that it was told of |
| `Once.SurvivesIffLatestObeyedLast` | handshake/once.go:53-126 | at the end a connection is left alive by both handshakes if and only if its acceptance is the latest event at the greater peer and its verdict the last that the lesser peer obeyed |
| `Once.InOrderSurvivorIff` | handshake/once.go:53-126 | with verdicts handled in issue order, a connection survives if and only if the latest event is its acceptance and the lesser peer obeyed it |
| `Once.OutOfOrderLeavesNone` | handshake/once.go:73-81 | a reachable end state with two acceptances handled out of order in which every connection is closed |
| `Once.RecoveryFindsEntryIff` | handshake/once.go:109-121 | after a failed keep-alive write there is an entry if and only if no other recovery came since the latest acceptance; it is the handler's own if and only if its own acceptance is the latest event, and otherwise its own connection is closed or about to be by one other handler |
| `Once.PanicsIffRecoveredSince` | handshake/once.go:116-120 | the recovery panics exactly when another recovery is the latest event, and otherwise proceeds |
| `Once.SecondRecoveryFindsNoEntry` | handshake/once.go:109-121 | a reachable state about to panic: the recovery before closed an entry that was not its own |
| `Once.DecideAloneIsARun` | handshake/once.go:87-124 | an uninterrupted deciding handler is one of the runs, with the pool, the closes and the byte of the handler as code |
| `Once.ObeyAloneIsARun` | handshake/once.go:64-82 | so is an uninterrupted obeying handler, which changes nothing at the greater peer |
| `Once.VerdictByteIs` | handshake/once.go:95-124 | a refusal sends exactly 0 and an acceptance exactly 1; the connection is kept exactly when 1 was written, and else closed |
| `Once.HandlersAgree` | handshake/once.go:64-124 | when the lesser peer reads the byte that the greater one sent, both keep the connection or neither does, for all pools and times |
| `Once.OncePool.constructor` | handshake/once.go:44-51 | the pool starts empty |
| `Once.OncePool.Decide` | handshake/once.go:87-93 | one locked section: the connection is kept exactly when there is none or the one there is older than the minimum age |
| `Once.OncePool.Recover` | handshake/once.go:116-120 | one locked section: whatever entry is current is closed and removed |
| `Once.OncePool.Obey` | handshake/once.go:73-81 | one locked section: the former connection is closed and the new one kept |
| `Once.OncePool.Handshake` | handshake/once.go:60-124 | the whole handler: only the peer with the greater number sends a byte, 1 exactly when it may replace; the lesser keeps exactly on a byte other than 0; refusal, replacement, failed writes; other remotes are untouched |
| `SyncFilter.SyncFilter.Allow` | channel/filter.go:44-49 | the count of the identifier goes up by one |
| `SyncFilter.SyncFilter.Deny` | channel/filter.go:54-64 | the count goes down by one and the key goes at one; an unmatched call stores a negative count |
| `SyncFilter.SyncFilter.Filter` | channel/filter.go:68-81 | a message is dropped exactly when it is no synchronisation or its key is absent |
| `SyncFilter.CountIsOutstanding` | channel/filter.go:44-64 | after any history the count is the calls of Allow less those of Deny |
| `SyncFilter.UnmatchedDenyLetsPass` | channel/filter.go:54-64 | a Deny without an Allow stores -1 and leaves the key present |
| `SyncFilter.PresentWhilePositiveIffMatched` | channel/filter.go:44-81 | throughout a history the key is present exactly while allowances are outstanding, if and only if no Deny came without an Allow |
| `GossipSafety.ReachableIsSafe` | peer/gossip.go:83-229 | every reachable state keeps integrity and exact accounting at every peer and message |
| `GossipSafety.ContentHasAnOrigin` | peer/gossip.go:83-229 | content in a resolver, in flight, past the filter or returned by Sync was put in by an application under that identifier |
| `GossipMemory.AnswerIsReplacedIff` | peer/gossip.go:192-213 | over whole runs in which no application supplies the peer with the identifier, what its resolver answers is replaced if and only if at the start its handler was past its query for it with another content, and goes on |
| `GossipMemory.AnswerAfterRun` | peer/gossip.go:192-213 | and then the answer is the content of that handler |
| `GossipAllowances.OnlyInsertionsChange` | peer/gossip.go:199-213 | no step but an application's own changes an answer, except the inserting section of a handler |
| `GossipRuns.GossipCanReplaceAnAnswer` | peer/gossip.go:199-212 | a reachable insertion over what an application inserted between the query and the insertion |
| `GossipSafety.FilterCountsAllowances` | peer/gossip.go:117-143 | the count is the timers and Sync calls still to reverse it and the key is present exactly then; a remembered subnet goes without exactly while a push handler stands between storing it and its Allow and there is no other allowance |
| `GossipRuns.SubnetCanPrecedeAllowance` | peer/gossip.go:122-128 | a reachable state with a remembered subnet and nothing allowed |
| `GossipMemory.SubnetIsRememberedIff` | peer/gossip.go:122-140 | over whole runs that store no subnet for an identifier, the one of the start is remembered at the end, unchanged, if and only if no timer for that identifier has run out |
| `GossipMemory.PushIsPassedOnIff` | peer/gossip.go:122-228 | inserted content is passed on with the subnet that the latest push stored if no timer has run out since, of this push or of an earlier one, and else not at all |
| `GossipRuns.StoredSubnetCanBeForgotten` | peer/gossip.go:122-143 | a reachable state in which the timer of an earlier push has removed the subnet that a handler has just stored |
| `GossipRuns.InsertedWithoutSubnet` | peer/gossip.go:215-223 | a reachable state in which that timer ran out while the allowance of a later push is open, and content was inserted that is not passed on |
| `GossipRuns.SyncCanReturnContent` | peer/sync.go:73-145 | a run in which a Sync call asks, is answered and returns the content |
| `GossipSafety.CheckPassesIffAllowed` | peer/gossip.go:89-94 | each filter check lets data pass if and only if an allowance for its identifier is outstanding |
| `GossipAllowances.InsertionIsAllowedIff` | peer/gossip.go:89-213 | every insertion of every run has its own earlier check of that data, which found an allowance; one is still there at the insertion if and only if the Denies since have not used up those there were and those made since |
| `GossipAllowances.AllowanceOutlastsIff` | peer/gossip.go:89-143 | from a check that passes along any run, an allowance is left if and only if fewer Denies came than allowances at the check and Allows since |
| `GossipAllowances.AllowancesAreConserved` | peer/gossip.go:117-143 | over whole runs, allowances at the end plus Denies are allowances at the start plus Allows |
| `GossipRuns.InsertionCanFollowDeny` | peer/gossip.go:91-94 | a reachable state in which content is inserted although no allowance is left |
| `GossipTermination.StepPays` | peer/gossip.go:51-229 | every delivery, loss, section, timeout and Sync step lowers the weighted measure |
| `GossipTermination.FloodTerminates` | peer/gossip.go:51-229 | from any state at all, a flood without application input has at most as many steps as the measure of that state |
| `GossipTermination.PendingIsAwaited` | peer/sync.go:73-111 | every pending entry has a Sync call that has not returned |
| `GossipTermination.StuckIsClean` | peer/gossip.go:130-143 | where a flood ends nothing is in flight, and no peer remembers a subnet, allows a synchronisation or keeps a pending entry |
| `GossipPeer.Recipients` | peer/gossip.go:51-63 | the closest peers for the default subnet, else the whole subnet or its first Alpha members |
| `GossipPeer.Peer.Gossip` | peer/gossip.go:65-80 | one push for each recipient, in order, with the identifier and the subnet |
| `GossipPeer.Peer.constructor` | peer/gossip.go:29-42 | a peer starts with no resolver, subnets, allowances or waiters |
| `GossipPeer.Peer.DidReceivePush` | peer/gossip.go:99-154 | the handler does what its sections do one after the other: forget, or store, allow, start a timer and pull |
| `GossipPeer.Peer.DidReceivePull` | peer/gossip.go:156-190 | the handler answers a known identifier with its content and changes nothing |
| `GossipPeer.Peer.SyncerDidReceive` | peer/sync.go:147-162 | data that passes the filter fills the pending slot of its identifier |
| `GossipPeer.Peer.GossiperDidReceive` | peer/gossip.go:192-229 | run without interruption, data that passes the filter and is new and not empty is inserted, and gossiped while its subnet is remembered |
| `GossipPeer.Peer.BeginSync` | peer/sync.go:73-89 | a Sync call joins or creates the pending slot and allows its identifier |
| `GossipPeer.Peer.EndSync` | peer/sync.go:90-111 | a Sync call that ends removes the pending entry, returns what its slot holds and reverses its allowance |
| `GossipPeer.Peer.TimeOut` | peer/gossip.go:134-143 | a timer forgets the subnet and reverses its allowance |
| `GossipPeer.SettleIsARun` | peer/gossip.go:83-229 | a handler that runs from start to end is one of the runs of the network |
| `GossipHandlers.PushMeans` | peer/gossip.go:99-154 | a push that is unknown: subnet remembered, one allowance, one timer, a pull to its sender; any other push is ignored |
| `GossipHandlers.PullMeans` | peer/gossip.go:156-190 | a pull is answered to its sender with the content known, and changes nothing |
| `GossipHandlers.SyncerFillsSlot` | peer/sync.go:147-162 | data that is expected fills exactly the pending slot of its identifier |
| `GossipHandlers.WaitingCallsGetTheData` | peer/sync.go:29-51 | every waiting call of that slot can return the data |
| `GossipHandlers.CallsShareASlot` | peer/sync.go:73-83 | calls for a pending identifier share its slot, the first one gets an empty one |
| `GossipHandlers.GossiperMeans` | peer/gossip.go:89-229 | news that passes the filter is inserted and pushed to every recipient with the remembered subnet; anything else changes neither resolver nor network |
| `GossipHandlers.EveryRecipientIsPushed` | peer/gossip.go:65-80 | after a gossip every recipient has a push of its own in flight, with the identifier and the subnet |
| `GossipHandlers.EveryPeerIsAsked` | peer/sync.go:116-138 | after a Sync call has asked, every peer asked has a pull of its own in flight |
| `GossipHandlers.ReceivedByAddressee` | peer/gossip.go:83-97 | a message is handled by its addressee alone, and it alone leaves the network |
| `BigEndian.ValueOfDigits` | codec/length_prefix.go:14-16 | reading back the last k digits of a number gives it modulo 256^k |
| `BigEndian.DigitsOfValue` | codec/length_prefix.go:38-38 | byte strings of one length are determined by their number |
| `Framing.FrameReadsBack` | codec/length_prefix.go:12-48 | whatever part of a stream arrives, its first frame is read back exactly when it is complete and fits the buffer |
| `Framing.MsgReadsBack` | channel/channel.go:245-305 | a message is taken exactly when all its frames are there and readable, a synchronisation with its own data |
| `Framing.FrameLength` | codec/length_prefix.go:12-26 | a frame is twenty bytes longer than its payload |
| `Framing.OnlySyncsHaveTwoFrames` | channel/channel.go:391-392 | only messages of kind 3 are followed by a second frame |
| `Framing.ForeignFrameIsSkipped` | channel/channel.go:271-274 | a readable frame that is no header is skipped, and what follows is delivered as without it |
| `Framing.ReaderDeliversPrefix` | channel/channel.go:245-305 | whatever byte prefix of a stream arrives, exactly the complete leading messages are delivered |
| `Framing.IntactStreamDeliversAllIffReadable` | codec/gcm.go:102-108 | an intact stream delivers everything if and only if every frame leaves 16 bytes of the reader's buffer free |
| `Framing.LargeMessageIsUnreadable` | codec/gcm.go:102-108 | a lawful codec and a message that fits the writer's buffer, is sent and is never delivered |
| `Framing.ShortIsLawful` | codec/gcm.go:86-126 | a concrete codec obeys the laws assumed of sealing and marshalling, for every buffer size |
| `Connection.NoncesMatchIffDistinct` | codec/gcm.go:67-83 | each end writes under the nonce that the other reads under, if and only if their identities differ |
| `Connection.LesserWritesUnderLast` | codec/gcm.go:73-81 | the peer with the smaller number writes under the all-ones nonce and reads under zero, the other the reverse |
| `Connection.PlainEncode` | codec/plain.go:9-11 | the bytes are appended unchanged |
| `Connection.PlainDecode` | codec/plain.go:17-20 | the buffer is filled from the stream, or everything is taken and it fails |
| `Connection.GCMEncode` | codec/gcm.go:86-99 | the sealed payload is appended |
| `Connection.GCMDecode` | codec/gcm.go:102-126 | succeeds exactly when the buffer has room for the seal, the bytes are there and they open; then the buffer holds the payload |
| `Connection.LengthPrefixEncode` | codec/length_prefix.go:12-26 | a frame is appended: the length modulo 2^32 and the sealed payload |
| `Connection.LengthPrefixDecode` | codec/length_prefix.go:32-48 | one frame is read into the buffer, or none |
| `ReadControl.WayLeads` | channel/channel.go:245-305 | each way through a turn leads back to the start of the loop or out of it, and each exit closes the quit channel once |
| `ReadControl.ClosedOnceReturned` | channel/channel.go:245-305 | whatever way a reader takes, it has closed its quit channel once if it has returned and else not at all |
| `Connection.ReadTurn` | channel/channel.go:246-304 | one turn stops at one of four exits with a close of its own, skips a header that cannot be read, or yields a message |
| `Connection.ReadLoop` | channel/channel.go:221-306 | for all answers of the rate limit and the context, the loop delivers what the stream then delivers, along a way of the control flow that closes the quit channel once |
| `WriteLoop.Loop` | channel/channel.go:324-415 | the loop as code reaches the state of the schedule, for every schedule of replacements and faults |
| `WriteLoop.EveryMessageOnceInOrder` | channel/channel.go:324-415 | messages taken are those finished plus at most one pending; the marshalable ones are flushed once each, in order |
| `WriteLoop.WorkingConnectionFinishesAll` | channel/channel.go:334-414 | after any schedule, one more connection that works for as many turns as messages are unfinished gets all of them out |
| `WriteLoop.EveryWriterQuitsOnce` | channel/channel.go:346-406 | no quit channel is closed twice, only the current writer's is open, and none once the loop has returned |
| `WriteLoop.WiresAlongRun` | channel/channel.go:357-412 | each connection carries the stream of the messages flushed to it, then at most a prefix of the one that failed on it |
| `WriteLoop.EveryCutIsPossible` | channel/channel.go:368-406 | a write may break off anywhere: every prefix of a message is what some fault leaves |
| `WriteLoop.ReaderSeesWhatWasWritten` | channel/channel.go:245-412 | end to end on one connection: of what was written to it, the reader delivers the leading messages that arrived in full |
| `EndToEnd.ConnectionsDeliverAll` | channel/channel.go:220-415 | if the bytes of all flushed messages arrive and all messages are readable, the connections in the order of attachment deliver the marshalable finished messages in order, none left out, with at most one repetition for each connection that failed |
| `EndToEnd.ReceivedInOrderIff` | channel/channel.go:308-320 | readers deliver beside each other: for every merge, the messages are received in the order of the connections if and only if each reader has stopped before a later one delivers |
| `Inbound.LaterCanComeFirst` | channel/channel.go:314-320 | two readers of which the later one delivers first |
| `Inbound.InOrderIffOneAfterTheOther` | channel/channel.go:297-320 | the same for any number of readers and any messages |
| `ReaderSwitch.ReadersFollowTheLoop` | channel/channel.go:221-322 | however readers interleave, each is where its own moves lead and has closed its quit channel as often as they say |
| `ReaderSwitch.ReplacementIsSafe` | channel/channel.go:308-322 | replacing never blocks, drain channels are used once, quit channels are closed exactly by returning, and only the last reader may be undrained |
| `BigEndian.FirstDifferenceDecides` | dht/table.go:319-331 | the first differing byte decides which of two big-endian numbers is smaller |
| `Distance.DistIsInjective` | dht/table.go:319-331 | two peers are equally far exactly when they are the same |
| `Distance.IsCloser` | dht/table.go:319-331 | the byte loop decides which 256-bit XOR distance is smaller |
| `Table.SortedIsUnique` | dht/table.go:109-135 | a set of peers has only one sorted list |
| `Table.InsertedIsSorted` | dht/table.go:128-133 | inserting an absent peer at its rank keeps the list sorted and adds just that peer |
| `Table.AddPeerKeepsInv` | dht/table.go:109-135 | adding keeps list and map in step and leaves out the local peer |
| `Table.AbsentDeleteBreaksTable` | dht/table.go:149-156 | a table of one peer from which deleting an absent one empties the list and not the map |
| `Table.DeleteKeepsInvIff` | dht/table.go:137-157 | deleting keeps list and map in step if and only if the peer is present or no peer is closer; expiry entries too if and only if it has none |
| `Table.RunKeepsInv` | dht/table.go:109-274 | every run of adding, expiring, forgiving and deleting present peers keeps list, map and expiry entries in step |
| `Table.ExpiresIffOlder` | dht/table.go:238-268 | a peer given `d` at `t0` and handled at `t1` is removed if and only if `t1 - t0 > d`, whatever else happens in between, recording it again included |
| `Table.ForgivenPeerStays` | dht/table.go:270-274 | a peer that was forgiven is not removed, however late it is handled, until it is recorded anew |
| `Table.LatestAddressWins` | dht/table.go:120-123 | the address of a peer in the table is the one added last |
| `Table.PeersAreTheClosest` | dht/table.go:168-182 | after every run the result has min(n, size) peers, nearest first, each closer than every peer left out |
| `Table.AtIsDistinct` | dht/table.go:207-227 | distinct positions hold distinct peers |
| `InMemTable.InMemTable.constructor` | dht/table.go:85-103 | the table starts empty and valid |
| `InMemTable.InMemTable.Search` | dht/table.go:128-130 | binary search finds the rank of a peer |
| `InMemTable.InMemTable.AddPeer` | dht/table.go:109-135 | does what the table's AddPeer says and keeps the invariant |
| `InMemTable.InMemTable.DeletePeer` | dht/table.go:137-157 | drops the entry in front of the rank, and stays valid exactly under the stated condition |
| `InMemTable.InMemTable.HandleExpired` | dht/table.go:238-251 | removes the peer and its expiry entry exactly when it is older than its age, as `Table.ExpiresIffOlder` spells out, and stays valid |
| `InMemTable.InMemTable.AddExpiry` | dht/table.go:253-268 | records the time once, for peers in the table only |
| `InMemTable.InMemTable.DeleteExpiry` | dht/table.go:270-274 | forgets the expiry entry |
| `InMemTable.InMemTable.Peers` | dht/table.go:168-182 | the first n entries of the list, or none for n <= 0 |
| `InMemTable.InMemTable.RandomPeers` | dht/table.go:185-229 | min(n, m) pairwise distinct peers of the table in all branches, for all draws |
| `InMemTable.Floyd` | dht/table.go:216-228 | n distinct indices below m; every draw has a positive bound and the fallback is always fresh |
| `DoubleCache.InsertStaysTransparentIff` | dht/resolver.go:80-108 | an insert keeps the cache transparent if and only if it is not oversized for an identifier cached with another content |
| `DoubleCache.ConsistentRunsAreTransparent` | dht/resolver.go:80-130 | when identifiers always carry the same content, queries answer what the wrapped resolver would, after every run |
| `DoubleCache.OversizedReinsertIsShadowed` | dht/resolver.go:85-90 | two inserts after which the cache and the wrapped resolver disagree |
| `DoubleCache.CacheableContentIsRetained` | dht/resolver.go:92-103 | from any cache, a cacheable content stays queryable until later cacheable inserts exceed the capacity |
| `DoubleCache.InsertStaysBounded` | dht/resolver.go:80-108 | an insert keeps the front within its counter, and both generations within the capacity |
| `DoubleCache.MemoryIsBounded` | dht/resolver.go:38-46 | after any run at most twice the capacity is held, and at most n when set up with WithCapacity(n) |
| `DoubleCache.WithCapacityHalves` | dht/resolver.go:43-46 | twice the capacity set is the one asked for, but for an odd byte |
| `DoubleCache.DoubleCacheContentResolver.constructor` | dht/resolver.go:64-74 | the cache starts empty |
| `DoubleCache.DoubleCacheContentResolver.InsertContent` | dht/resolver.go:80-108 | pass-through, rotation and insertion as specified, with the wrapped resolver |
| `DoubleCache.DoubleCacheContentResolver.QueryContent` | dht/resolver.go:113-130 | front before back before the wrapped resolver |
| `RefCounts.ChannelLivesWhileHeld` | channel/client.go:71-131 | rc is the link plus the open holders, the channel is mapped exactly while that is positive, and exactly the channels without holders or with a receiver error are cancelled |
| `RefCounts.HolderFindsItsChannel` | transport/transport.go:176-181 | while a send or an accepted connection holds a binding, lookups find the very channel that it bound |
| `RefCounts.ConnectedButUnboundFollowsUnlink` | transport/transport.go:263-279 | a remote connected without a channel is served by a task that started under a link removed since |
| `RefCounts.FoundIffHeldThroughout` | channel/client.go:71-131 | a channel found at one point of a run is the one found at a later point if and only if it had a holder all the time in between |
| `RefCounts.SendFindsItsChannelIff` | transport/transport.go:158-182 | the lookup of a send finds the channel that it bound, or that the link gave it, if and only if that had a holder all the time since the send chose its branch |
| `RefCounts.SendCanMissItsChannel` | transport/transport.go:176-181 | a run in which the dial of an unlinked send releases the channel before the send looks it up |
| `Client.Client.constructor` | channel/client.go:56-69 | the client starts with no channels |
| `Client.Client.Bind` | channel/client.go:71-115 | counts one more holder, or makes a new channel |
| `Client.Client.Unbind` | channel/client.go:117-131 | counts one less, and cancels and forgets the channel with its last holder |
| `Client.Client.IsBound` | channel/client.go:133-138 | true for every entry; without one the read of the count panics |
| `Client.Client.Lookup` | channel/client.go:145-168 | Attach and Send find the entry of the remote or fail |
| `Client.Client.Kill` | channel/client.go:215-219 | a failing receiver cancels the channel of the sender and leaves it mapped |
| `Client.Transport.constructor` | transport/transport.go:123-140 | no links and no connections |
| `Client.Transport.Link` | transport/transport.go:188-197 | binds once, however often it is asked for, and cancels nothing |
| `Client.Transport.Unlink` | transport/transport.go:199-207 | unbinds exactly what Link bound, cancelling the channel if no one else holds it |
| `Client.Transport.Connect` | transport/transport.go:413-418 | one connection more |
| `Client.Transport.Disconnect` | transport/transport.go:420-429 | one connection less, and the entry goes with the last |
| `Client.Transport.Send` | transport/transport.go:158-182 | a send up to its lookup: bound only without a connection and a link |
| `Client.Transport.Serve` | transport/transport.go:263-300 | the accept handler: attached to the channel of the link or of its own binding, which it releases |
| `Client.LinkIsARun` | transport/transport.go:188-197 | for every remote, what Link does to the maps is a run of the machine of that remote |
| `Client.UnlinkIsARun` | transport/transport.go:199-207 | the same for Unlink |
| `Client.ConnectIsARun` | transport/transport.go:413-418 | the same for connecting, by the task that has the connection |
| `Client.DisconnectIsARun` | transport/transport.go:420-429 | the same for disconnecting |
| `Client.KillIsARun` | channel/client.go:215-219 | the same for a failing receiver, which affects no other remote |
| `Client.ServeIsARun` | transport/transport.go:263-300 | the same for the whole accept handler |
| `Client.SendIsARun` | transport/transport.go:158-182 | the same for a send, with the same result of the lookup |
| `ClientHistory.EveryHistoryIsARun` | transport/transport.go:158-429 | after any sequence of links, sends, lookups, accepted connections, connects, disconnects and ends of the goroutines that serve or dial, and receiver errors, for any remotes, each remote has seen a run of its own machine |
| `ClientHistory.HistoryCountsHolders` | channel/client.go:71-131 | so in the maps rc is the link plus the goroutines that hold the channel, connections are counted exactly, and exactly the channels without holders or with a receiver error are cancelled |
| `Receivers.Dispatch` | channel/client.go:199-230 | in place: finished receivers go, the others keep their order, freed places are cleared; killed exactly when a live receiver fails |
| `Receivers.LiveIsContained` | channel/client.go:200-224 | exactly the receivers that are not done stay, none more often than before |
| `Receivers.LiveOfParts` | channel/client.go:200-224 | the list is treated part by part, in order |
| `Policy.EvalConserves` | policy/allow.go:36-85 | the cleanup of any tree, read backwards, is exactly what the call incremented |
| `Policy.CleanupUndoesCall` | policy/allow.go:36-85 | each counter rises by its share of the cleanup, in reverse order, and running the cleanup restores it |
| `Policy.VerdictMeans` | policy/allow.go:36-169 | Max passes exactly below its maximum or when that is negative, RateLimit as its limiter answers, All and Any as their policies do one after the other |
| `Policy.AllPassesIff` | policy/allow.go:36-54 | All passes if and only if each policy does, and stops right after the first that does not |
| `Policy.AnyPassesIff` | policy/allow.go:60-85 | Any calls every policy and passes if and only if one does |
| `Policy.Listener.Call` | policy/allow.go:134-169 | a call of any policy computes what the tree evaluates to |
| `Policy.Listener.CallAll` | policy/allow.go:36-54 | lazy conjunction with composed cleanups |
| `Policy.Listener.CallAny` | policy/allow.go:60-85 | eager disjunction with composed cleanups |
| `Policy.RateLimiter.Allow` | policy/allow.go:94-127 | the address is remembered after the call, rotating the generations when the front is full; the limiter decides |
| `Policy.RateLimitIsBoundedIff` | policy/allow.go:89-128 | the remembered addresses are bounded, and then by the capacity, if and only if it is at least two |
| `Policy.LimiterIsKeptIff` | policy/allow.go:109-125 | exactly how many newcomers the limiter of an address outlasts: at least half of the capacity when the address was new |
| `Policy.CallDoesNotRenew` | policy/allow.go:114-122 | an address of the older generation that has just called is forgotten after one newcomer |
| `PolicyMachine.CountersAreTheSlotsHeld` | policy/allow.go:134-169 | in every interleaving a counter is the slots held, within 0 and its maximum, and cleanups free last taken first |
| `PolicyRefinement.AloneIsEval` | policy/allow.go:36-169 | run alone, the sections of a call reach exactly the verdict, cleanup and counters that the tree evaluates to |
| `Base64.EncodeReadsBack` | wire/addr.go:262-269 | base64url without padding decodes to what was encoded, for every length, and never contains a slash |
| `Base64.KnownEncodings` | wire/addr.go:262-262 | test vectors of section 10 of RFC 4648 and the two letters of its section 5 |
| `Base64.OctetsFailIff` | wire/addr.go:262-265 | only a letter too many fails for its length |
| `Base64.LineBreaksAreSkipped` | wire/addr.go:262-265 | line breaks are skipped wherever they stand |
| `Base64.ForeignCharactersFail` | wire/addr.go:262-265 | any other character outside the alphabet is refused |
| `Address.DecimalReadsBack` | wire/addr.go:257-260 | a printed number reads back |
| `Address.ParsesIff64Bits` | wire/addr.go:257-260 | a printed number is read exactly when it has at most 64 bits |
| `Address.ProtocolNumbers` | wire/addr.go:21-32 | protocols 1, 2 and 3 are tcp, udp and ws, and no other number has a name that reads back |
| `Address.PrintedParts` | wire/addr.go:221-223 | protocol, value, nonce and signature stand in this order behind slashes |
| `Address.LeadingSlashIsOptional` | wire/addr.go:237-239 | one leading slash may be left out |
| `Address.PrintedReadsBackIff` | wire/addr.go:221-276 | a printed address reads back equal if and only if its protocol has a name and its value no slash, and fails otherwise |
| `Address.ReadIsStable` | wire/addr.go:235-276 | every address read from any text survives printing and reading |
| `Ecies.WriteWord` | handshake/ecies.go:185-189 | the inner loop moves the bytes of one word into the buffer, conserving the value |
| `Ecies.ReadBits` | handshake/ecies.go:182-191 | into a zeroed buffer of any length, the value modulo 256^length is written, for any number and size of words |
| `Ecies.PaddedTo32` | handshake/ecies.go:167-174 | the 32 digits of the value, or a panic |
| `Ecies.PaddedReadsBackIff` | handshake/ecies.go:106-110 | reading back gives the number if and only if it is below 2^256; a panic comes only from 2^263 on |

Abstractions: sealing and opening are functions with a round-trip law and 16 bytes of expansion
(section 5.2 of RFC 5116), and header marshalling is an injective partial function; both are the
fields of `Framing.Codec` with the law `Framing.Lawful`, which a concrete codec satisfies
(`Framing.ShortIsLawful`). Clocks, random draws, rate limiter
answers, write faults and message loss are parameters or free choices of a step.

## Left out

- TCP listening and dialing, sockets, deadlines, and the retry loop of `dial`: input and output; dial and accept handlers appear only as tasks that bind, connect, disconnect and unbind.
- AES, GCM, ECIES and signature internals: only the round-trip and length laws are used.
- Nonce advance: `next`, `succ` and `pred` work on copies, so the nonce of a session never changes and the model keeps it constant.
- Binary marshalling of messages and addresses: an abstract partial injection.
- Token buckets of the rate limiters: their answers are arbitrary.
- Backoff, options, logging and JSON: the backoff is floating-point arithmetic without a law in the repository, and the others keep no state that the modelled code reads back.
- Merkle hashes of subnets, AddSubnet, DeleteSubnet and Subnet: the hash is foreign, and a subnet appears as an arbitrary list of members.
- Uniformity of sampling: only distinctness, range and size are stated.
- Peer discovery: its effect on the table is AddPeer, which the table invariant covers.
- Liveness of Sync callers: a returning caller deletes the shared pending entry, so only the safety of what is returned is stated.
- Inner handshakes and connections of more than two peers in Once: the pools of different remotes do not interact, and the machine is that of one pair.
- Concurrent handlers of one peer: a client dispatches from one goroutine, so the handlers of a peer take their sections one after the other; other peers, timers and Sync callers interleave.
- Evicting resolvers in the gossip network: a resolver there is a plain map, the cache is modelled by itself.
- Table locks: each method of the table is one step; HandleExpired keeps the expiry lock and takes the others inside, and interleavings within it are not modelled.
- Reference counts are unbounded numbers: the wrap-around of a 64-bit counter is not modelled.
- Back-pressure of buffered Go channels, and an Attach whose context ends between handing over its reader and its writer.
- The retries of one dial: a task may connect and disconnect any number of times before it ends. In `ClientHistory.dfy` each operation is one step; the two sections of linking and unlinking interleave with others in `RefCounts.dfy` only.
- The lock that a panic in Once leaves held: after `Panic` the other handlers of the peer go on, so the model allows more runs than the code, in which they would block.
- The first registration of a receiver and the stop of the dispatch loop: only the handling of one message by the registered receivers is modelled.
- A listener that rejects a connection does not run its cleanup (tcp/tcp.go:74-87): conservation is stated for the cleanup that a policy returns.
- GossipPeer.Recipients: a negative Alpha, on which slicing panics, is not modelled.
- Client.Client.IsBound: the panic on a missing entry is modelled as `None`.
- WriteLoop.Loop: a schedule attaches each connection once; the outbound queue is never closed, as nothing in the repository closes it.
