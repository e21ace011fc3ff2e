# honk, modelled and proved

This project models the parts of honk, a transparent proxy daemon, whose correctness rests on
invariants rather than on single branches, and proves what they promise. Everything is stated
for every input, every interleaving or every reachable state. `dafny verify dfyconfig.toml`
checks it.

| file | what it models |
|---|---|
| `Mode.dfy` | outbound modes, their routing overrides and the datapath flag word |
| `FlagsProtocol.dfy` | publication of the flag word by concurrent attempts that may be cancelled, refused by the backend, or fail to quiesce |
| `Hostname.dfy`, `ClientHello.dfy`, `HttpHost.dfy`, `Sniffer.dfy`, `HttpReads.dfy` | host name rules, the ClientHello and HTTP host parsers on possibly truncated bytes, the bounded reader around them, and when its answer does not depend on how a stream is cut |
| `CloseProtocol.dfy`, `CloseGuarantees.dfy`, `BulkClose.dfy`, `ConnectionTracker.dfy` | closing tracked connections: claims, completion, bulk close and what its summary counts |
| `Consumers.dfy` | who needs the connection table, and when it is emptied |
| `Samplers.dfy` | shared connection samplers that come and go with their subscribers |
| `Netlink.dfy`, `LinkDump.dfy`, `LinkTable.dfy` | nested attributes, link messages, and draining a dump over many datagrams |
| `SourceTables.dfy`, `Projection.dfy`, `DiagnosticSnapshot.dfy` | projecting diagnostics and their source forest into a dense snapshot |
| `Ranking.dfy`, `Listing.dfy` | the bounded connection listing |
| `StateReset.dfy` | moving a corrupt state database aside, with crashes |
| `Identity.dfy`, `NodeIds.dfy` | the text node ids are hashed from, and the renaming of group members when ids are derived anew |

Pure code is modelled by functions and lemmas. Code that updates things in place is modelled by
methods and classes proved against those functions. Concurrent code is a machine over its atomic
steps, and its theorems speak of every reachable state or every run.

Where the code and its comments differ, or a property one would expect fails, the code is followed.
The exact condition is proved, and a lemma shows the failure at an input:

- A datagram of a link dump is read up to the first message of another request; messages of the
  own request behind it are dropped with it (`LinkDump.NothingIsLostExactly`; input:
  `LinkTable.LoopbackIsLost`).
- Whether the host of an HTTP request is reported may depend on how its stream is cut, because a
  read may reach bytes behind the header that are not text (`HttpReads.HostReportedExactly`; input:
  `HttpReads.BinaryBodyHidesHost`).
- A reset that is interrupted between moving the database and deleting its `-shm` lets a new
  database start beside that `-shm` (`StateReset.NewDatabaseBesideShmExactly`; input:
  `StateReset.CrashedResetLeavesShm`).
- A group member whose stored id was unset or shared by several nodes is not followed and may
  dangle (`NodeIds.ResolvedMemberDanglesExactly`; input: `NodeIds.SharedIdDangles`).
- A member that is followed names another node if an earlier one derived the same id
  (`NodeIds.MemberKeepsItsNodeExactly`; input: `NodeIds.SameContentTakesOver`).
- A snapshot shows each provider's diagnostics once only while subscription and provider ids are
  unambiguous (`DiagnosticSnapshot.EveryBucketOnceExactly`; input:
  `DiagnosticSnapshot.ListedTwiceShownTwice`).
- An attribute longer than sixteen bits can count does not read back, because its length field
  wraps (`Netlink.WalkReadsBackExactly`; input: `Netlink.LongPayloadIsNotReadBack`).

Assumptions about the outside: a failed backend write leaves the kernel word as it was; operations
on one key of a concurrent map are atomic; a file lock goes when its process does; renames within
a directory are atomic.

## Model

| member | source | states |
|---|---|---|
| Mode.CanonicalModes | crates/honk-core/src/mode.rs:167-195 | the three stored spellings are told apart by the case-insensitive mode queries, and only by those |
| Mode.ComposeBits | crates/honk-core/src/mode.rs:304-318 | each bit of the composed word is set exactly for its own reason; READY needs ENABLED |
| Mode.OffloadAllIffEveryFlowIsDirect | crates/honk-core/src/mode.rs:197-249 | with the direct node available, OFFLOAD_ALL is set exactly when userspace would send every flow that is neither must nor block to direct |
| Mode.RuleOffloadLeavesRoutesUnchanged | crates/honk-core/src/mode.rs:197-249 | the rule-direct bit is set exactly in Rule mode, where every override is the identity |
| Mode.MissingNativeTargetBlocks | crates/honk-core/src/mode.rs:139-163 | a native Global selection blocks exactly when its target is unset or no longer in the configuration |
| FlagsProtocol.StepKeepsInv | crates/honk-core/src/mode.rs:437-481 | every step of every attempt, with its awaits, cancellations and failures, keeps the tie between published things, lock owner and commit log |
| FlagsProtocol.RunKeepsInv | crates/honk-core/src/mode.rs:437-628 | so does every run |
| FlagsProtocol.RunsSerialise | crates/honk-core/src/mode.rs:437-481 | whatever the interleaving, outside a commit the published state, mode and accepted words are those of the committed attempts run alone in commit order |
| FlagsProtocol.KernelMatchesOwner | crates/honk-core/src/mode.rs:437-529 | outside a commit the last accepted word is the composition of the published state and mode |
| FlagsProtocol.OnlyAcceptedWritesLand | crates/honk-core/src/mode.rs:446-464 | the log of landed attempts grows by an attempt exactly when the backend accepts its write |
| FlagsProtocol.LandedLogExplainsWords | crates/honk-core/src/mode.rs:446-464 | the accepted words are exactly those of the landed attempts, even inside a commit |
| FlagsProtocol.AbandonedAttemptsChangeNothing | crates/honk-core/src/mode.rs:437-481 | an attempt that ends refused, skipped, cancelled or with a failed write changed neither state, mode nor word in any of its steps |
| FlagsProtocol.CommittedIsForeverInRuns | crates/honk-core/src/mode.rs:447-464 | once an attempt's write landed it commits; no continuation abandons it |
| FlagsProtocol.ReplayCoherent | crates/honk-core/src/mode.rs:304-318 | a sequence of committed attempts ends with the composed word, one word per attempt, and a canonical mode |
| FlagsProtocol.ReplayPrefix | crates/honk-core/src/mode.rs:446-464 | later commits never rewrite earlier accepted words |
| FlagsProtocol.ReadyImpliesEnabledAlways | crates/honk-core/src/mode.rs:304-318 | no word ever accepted carries READY without ENABLED, not even inside a commit |
| FlagsProtocol.FenceHoldsUntilReopen | crates/honk-core/src/mode.rs:562-584 | after a fence's write landed, no accepted word carries READY until a reopen's or initialise's write lands |
| FlagsProtocol.FailedQuiescenceRefusesReopen | crates/honk-core/src/mode.rs:562-597 | after a fence that failed to quiesce, no reopen commits and each that gets the lock is refused, until a fence completes or the flags are initialised again |
| FlagsProtocol.CommittedRequestsTakeEffect | crates/honk-core/src/mode.rs:362-430 | a committed mode request sets its mode, never changes native to legacy control or back, keeps a pinned target, and commits native Global only with a target that exists |
| FlagsProtocol.TargetFromNamePresent | crates/honk-core/src/mode.rs:41-100 | a name resolves only to a node or group the configuration holds, under that name |
| FlagsProtocol.OffloadAgreesWithRouting | crates/honk-core/src/mode.rs:139-163 | in every quiet reachable state with a word accepted, a disabled datapath included, the kernel's offload bits agree with what userspace routing does |
| FlagsProtocol.DatapathFlags.constructor | crates/honk-core/src/mode.rs:333-355 | a new owner has published nothing |
| FlagsProtocol.DatapathFlags.Update | crates/honk-core/src/mode.rs:437-481 | one update commits exactly its plan when the write is accepted, and otherwise changes nothing |
| FlagsProtocol.DatapathFlags.ReconcileKernelTrace | crates/honk-core/src/mode.rs:504-529 | trace demand is looked at before and after the backend wait; only a change against both is written, and only the trace bit changes |
| FlagsProtocol.DatapathFlags.ResetMode | crates/honk-core/src/mode.rs:606-628 | activation resets a native mode after its write, skips a legacy one, and refuses before initialise |
| Hostname.ValidHostnamesFollowRules | crates/honk-core/src/sniffing.rs:432-459 | checking label by label accepts exactly the names of 1 to 253 bytes with labels of 1 to 63 allowed bytes and no hyphen at a label's ends |
| Hostname.CheckHostname | crates/honk-core/src/sniffing.rs:432-459 | the loop over labels decides that predicate |
| ClientHello.CanonicalHostOfAscii | crates/honk-core/src/sniffing.rs:377-386 | an ASCII name yields itself in lower case without trailing dots, if that is a valid host name |
| ClientHello.CanonicalHostsFollowRules | crates/honk-core/src/sniffing.rs:377-386 | any host it yields obeys the rules and has no capitals |
| ClientHello.ReadName | crates/honk-core/src/sniffing.rs:366-389 | one round over the name list answers or moves on, without changing the answer of the whole list |
| ClientHello.ParseSniExtension | crates/honk-core/src/sniffing.rs:349-392 | the loop answers the first valid host entry of a complete list |
| ClientHello.ParseClientHelloBody | crates/honk-core/src/sniffing.rs:269-346 | skipping session id, ciphers and compression by their lengths reaches the extension block, whatever is cut off |
| ClientHello.ScanExtensions | crates/honk-core/src/sniffing.rs:328-345 | the loop finds the first server name extension within the clamped end |
| ClientHello.ParseExtensions | crates/honk-core/src/sniffing.rs:319-345 | the extension block is clamped to what was received |
| ClientHello.ParseTlsSni | crates/honk-core/src/sniffing.rs:204-260 | record, handshake and body ends are clamped as the reference function says |
| ClientHello.SniStable | crates/honk-core/src/sniffing.rs:204-346 | once a prefix yields a host, every longer input yields the same host |
| ClientHello.SniAnswersAreHostnames | crates/honk-core/src/sniffing.rs:204-459 | for any bytes at all, an answer is a lower-case name that obeys the rules |
| ClientHello.WellFormedHelloYieldsHost | crates/honk-core/src/sniffing.rs:204-392 | every well-formed ClientHello in one record, with any random, session id, ciphers, compression and preceding extensions, yields its first valid host as soon as the server name extension is complete |
| ClientHello.NoServerNameNoHost | crates/honk-core/src/sniffing.rs:328-345 | without a server name extension no host is found, however the block is cut |
| HttpHost.ParseHttpHost | crates/honk-core/src/sniffing.rs:395-424 | the loop over lines answers the first Host header with a valid name, in valid UTF-8 that starts with a known method |
| HttpHost.HttpAnswersAreHostnames | crates/honk-core/src/sniffing.rs:395-424 | for any bytes at all, an answer is a lower-case name that obeys the rules |
| HttpHost.RequestYieldsHost | crates/honk-core/src/sniffing.rs:395-424 | a request whose lines before its Host header name no host yields that host in lower case without port, whatever follows |
| Sniffer.ReadPrefix | crates/honk-core/src/sniffing.rs:98-123 | the reading loop buffers exactly the consumed prefix |
| Sniffer.ReportedDomainsAreHostnames | crates/honk-core/src/sniffing.rs:125-141 | whatever the stream holds, a reported domain is a lower-case name that obeys the rules |
| Sniffer.SniffTcp | crates/honk-core/src/sniffing.rs:98-141 | for every stream and every way reads end, the buffer is exactly the consumed prefix, at most 4096 bytes, and the verdict is that of the two parsers on the prefix |
| Sniffer.ClassifyBuffer | crates/honk-core/src/sniffing.rs:125-141 | TLS is tried before HTTP, and the buffer is handed back whole |
| Sniffer.TlsReadsStopAtOnePoint | crates/honk-core/src/sniffing.rs:98-182 | on a stream that starts with 0x16 the loop stops at a point the stream alone determines |
| Sniffer.FragmentationIndependence | crates/honk-core/src/sniffing.rs:98-182 | any two fragmentations of such a stream, end of stream included, give the same buffer and host |
| Sniffer.BoundedAnswerIsFinal | crates/honk-core/src/sniffing.rs:98-141 | a host found within the bound is the one the whole stream would give |
| Sniffer.FragmentedHelloIsRecognised | crates/honk-core/src/sniffing.rs:98-182 | any fragmentation of a stream that begins with a well-formed ClientHello whose server name ends within the bound reports its host |
| HttpReads.RequestReadsStop | crates/honk-core/src/sniffing.rs:98-182 | however a request is cut, reading stops at the end of its header or within one read of it |
| HttpReads.StopsAnywhere | crates/honk-core/src/sniffing.rs:98-123 | and every point up to there is where some way of cutting it stops |
| HttpReads.HostReportedExactly | crates/honk-core/src/sniffing.rs:98-141 | a request whose header names a host within the bound is reported with it however it is cut, if and only if the header is valid text and the bytes one read can reach behind it are ASCII |
| HttpReads.BinaryBodyHidesHost | crates/honk-core/src/sniffing.rs:395-397 | an input whose host is reported under one cut and not under another |
| Sniffer.CompleteHelloIsBufferedExactly | crates/honk-core/src/sniffing.rs:147-182 | a complete ClientHello within the bound is buffered exactly; no byte behind it is consumed |
| CloseProtocol.StepKeepsInv | crates/honk-core/src/connection_tracker.rs:38-95 | every step of closers, owners, registrations, removals and clears keeps the protocol invariant |
| CloseProtocol.RunKeepsInv | crates/honk-core/src/connection_tracker.rs:38-95 | so does every interleaving |
| CloseGuarantees.ActionsRunAtMostOnce | crates/honk-core/src/connection_tracker.rs:450-487 | no interleaving runs an owner's close action twice, nor those of two owners of one signal |
| CloseGuarantees.WaitShowsFirstReport | crates/honk-core/src/connection_tracker.rs:62-85 | a wait answers with the first completion report of its signal |
| CloseGuarantees.WaitersAgree | crates/honk-core/src/connection_tracker.rs:76-85 | all waiters on one signal get the same outcome |
| CloseGuarantees.ClosedMeansAcknowledged | crates/honk-core/src/connection_tracker.rs:62-85 | closed is answered only if the first terminal report was a success |
| CloseGuarantees.LaterOwnersAreNeverClaimed | crates/honk-core/src/connection_tracker.rs:450-487 | in every run, an owner registered after a closer made its selection, under whatever id, is never claimed by that closer |
| CloseGuarantees.LaterOwnersAreLeftAlone | crates/honk-core/src/connection_tracker.rs:450-487 | in every run, no claim or action of that closer moves such an owner's signal, unless an owner it did select has that very signal |
| CloseGuarantees.ClaimedOwnersWereSelected | crates/honk-core/src/connection_tracker.rs:450-487 | every claimed owner had been selected by its claimant and has left active |
| CloseGuarantees.AllClaimedBeforeFirstWait | crates/honk-core/src/connection_tracker.rs:389-412 | when a bulk close starts to wait, no selected owner that is still registered is active |
| CloseGuarantees.OutcomeMeans | crates/honk-core/src/connection_tracker.rs:389-412 | in any interleaving, closed and failed are the first report of the selected owner's signal, not closable means no owner, and an owner is gone only if its id does not stand for it any more |
| BulkClose.BulkCloseAccounts | crates/honk-core/src/connection_tracker.rs:389-412 | when a bulk close is over, its closed and failed counts are the asked owners whose signal was first reported so, and with the connections not asked they add up to the selection |
| BulkClose.NotAskedMeans | crates/honk-core/src/connection_tracker.rs:389-412 | a connection that was not asked had no owner or its id stands for something else |
| BulkClose.Tally | crates/honk-core/src/connection_tracker.rs:402-411 | the loop counts closed and skipped outcomes and tells whether one failed |
| ConnectionTracker.CloseSignal.constructor | crates/honk-core/src/connection_tracker.rs:41-43 | a new signal is active |
| ConnectionTracker.CloseSignal.TryClaim | crates/honk-core/src/connection_tracker.rs:45-53 | exactly the claim that finds the signal active wins |
| ConnectionTracker.CloseSignal.Complete | crates/honk-core/src/connection_tracker.rs:62-74 | the first completion decides and later ones are ignored |
| ConnectionTracker.MatchingIsExact | crates/honk-core/src/connection_tracker.rs:356-386 | a selection holds exactly the matching entries, each with the owner it is registered with |
| ConnectionTracker.FullVisitCounts | crates/honk-core/src/connection_tracker.rs:356-386 | a visit of the whole table selects as many connections as match |
| ConnectionTracker.Tracker.SnapshotClose | crates/honk-core/src/connection_tracker.rs:356-386 | a snapshot is refused exactly when more than the maximum of the registered connections match, in any visiting order, and otherwise selects exactly those |
| ConnectionTracker.Tracker.StartClose | crates/honk-core/src/connection_tracker.rs:450-487 | only the very owner object selected is claimed; a replaced one is gone, one without owner cannot be closed, an unacknowledged UDP close fails at once |
| ConnectionTracker.Tracker.StartAll | crates/honk-core/src/connection_tracker.rs:389-412 | all closes are started before anything waits |
| ConnectionTracker.Tracker.StartMatching | crates/honk-core/src/connection_tracker.rs:389-401 | a bulk close is refused exactly when more than the maximum match, leaving every signal as it was; otherwise every matching connection has a request and no owner of one is left active |
| ConnectionTracker.Tracker.FinishMatching | crates/honk-core/src/connection_tracker.rs:402-411 | once the waits are over, the summary counts the phases their signals ended in |
| ConnectionTracker.Tracker.Enable | crates/honk-core/src/connection_tracker.rs:276-289 | enabling is the whole uninterrupted transition of the consumer protocol |
| ConnectionTracker.Tracker.Disable | crates/honk-core/src/connection_tracker.rs:290-322 | so is disabling, with the wipe of the last consumer; entries that stay are unchanged |
| Consumers.StepKeepsInv | crates/honk-core/src/connection_tracker.rs:276-322 | under the transition lock a thread that empties the table finds no consumer on until it is done |
| Consumers.WipesOnlyWhenNobodyIsOn | crates/honk-core/src/connection_tracker.rs:290-322 | in every reachable state, entries are wiped only while no consumer is on |
| Consumers.RegisteredStaysWhileOn | crates/honk-core/src/connection_tracker.rs:276-342 | a connection registered while a consumer stays on stays until removed; no earlier shutdown overtakes it |
| Consumers.OthersStayOn | crates/honk-core/src/connection_tracker.rs:276-322 | no run without a shutdown of that very consumer turns it off |
| Samplers.StepKeepsInv | crates/honk-core/src/clash_api.rs:1313-1380 | every step of subscribers, samplers, guards, aborts and the table's drop keeps the lifecycle invariant |
| Samplers.RunKeepsInv | crates/honk-core/src/clash_api.rs:1313-1380 | so does every interleaving |
| Samplers.LiveReceiversAreServed | crates/honk-core/src/clash_api.rs:1313-1380 | while the table lives, a receiver's channel is the current one of its interval with its sampler at work, exactly unless that sampler was aborted |
| Samplers.OneSamplerPerInterval | crates/honk-core/src/clash_api.rs:1313-1328 | two samplers of one interval never run at once |
| Samplers.ReclaimedChannelsStayEmpty | crates/honk-core/src/clash_api.rs:1362-1375 | a reclaimed channel never has a receiver again |
| Samplers.GuardSparesSuccessors | crates/honk-core/src/clash_api.rs:1330-1344 | a retiring task's guard never removes its successor's entry |
| Samplers.StreamSamplers.Join | crates/honk-core/src/clash_api.rs:1313-1328 | subscribing takes the protocol's subscribe step on the table of senders: it joins the current channel or creates it with its first receiver |
| Samplers.StreamSamplers.Reclaim | crates/honk-core/src/clash_api.rs:1362-1375 | an idle sampler takes the protocol's reclaim step, and leaves its loop exactly when that removed its channel |
| Samplers.StreamSamplers.DropTaskGuard | crates/honk-core/src/clash_api.rs:1336-1344 | the guard takes the protocol's guard step, leaves no entry of its own channel and keeps all others |
| Netlink.PutAttr | crates/honk-core/src/netlink.rs:182-192 | appending an attribute to an aligned buffer appends its padded encoding |
| Netlink.AttrPayload | crates/honk-core/src/netlink.rs:166-180 | payloads are native-endian numbers, raw bytes, zero-terminated text or nested attributes |
| Netlink.EncodedAligned | crates/honk-core/src/netlink.rs:182-192 | an encoding always ends on a four-byte boundary |
| Netlink.ForEachAttr | crates/honk-core/src/netlink.rs:674-690 | the walker visits what the reference walk visits, and stops at a malformed attribute |
| Netlink.WalkReadsBackExactly | crates/honk-core/src/netlink.rs:674-690 | walking what was appended visits exactly the written attributes in order, if and only if every type and length fits its field |
| Netlink.WalkIgnoresFlags | crates/honk-core/src/netlink.rs:674-690 | attributes of fitting length are all visited, whatever flag bits their types carry, and shown without them |
| Netlink.LongPayloadIsNotReadBack | crates/honk-core/src/netlink.rs:182-192 | a payload of 65532 bytes wraps the length field and does not read back |
| Netlink.NestedReadsBackExactly | crates/honk-core/src/netlink.rs:166-192 | the same at every level of nesting |
| LinkDump.TextBeforeZero | crates/honk-core/src/netlink.rs:710-716 | a name is the bytes before the first zero |
| LinkDump.ReadKind | crates/honk-core/src/netlink.rs:723-732 | the last kind attribute of the nested link info wins |
| LinkDump.ReadAttr | crates/honk-core/src/netlink.rs:708-737 | one attribute updates one field; a master of a wrong size spoils the link, an address of another size is ignored |
| LinkDump.ReadLink | crates/honk-core/src/netlink.rs:692-753 | the reader agrees with the reference on every message, malformed ones included |
| LinkDump.ReadMessage | crates/honk-core/src/netlink.rs:762-787 | what one message does to the dump: foreign, interrupted, done, error with its number, link or ignored |
| LinkDump.ParseLinkDatagram | crates/honk-core/src/netlink.rs:755-791 | folding one datagram appends its links and reports whether the dump is done |
| LinkDump.DumpLinks | crates/honk-core/src/netlink.rs:815-823 | the loop over datagrams drains as the reference does |
| LinkDump.DatagramFoldedExactly | crates/honk-core/src/netlink.rs:755-791 | a datagram yields the links of its plain front; it ends the dump exactly at the request's DONE and goes on exactly when nothing is left or a foreign message follows |
| LinkDump.DumpSucceedsExactly | crates/honk-core/src/netlink.rs:755-823 | a dump succeeds exactly when some datagram completes it and all before it let it go on, and then yields the plain links in arrival order; interrupted, failed or malformed messages before that fail it |
| LinkDump.NothingIsLostExactly | crates/honk-core/src/netlink.rs:755-823 | a dump that ends with some datagram returns every link of the request up to there if and only if no earlier datagram holds one behind its plain front |
| LinkDump.ItemsOfEncoding | crates/honk-core/src/netlink.rs:755-767 | encoded messages are read back, header by header |
| LinkDump.SplitDoesNotMatter | crates/honk-core/src/netlink.rs:755-823 | any split of a request's messages into datagrams gives the same links or the same failure |
| LinkTable.LinkReadsBack | crates/honk-core/src/netlink.rs:692-753 | a link comes back through both levels of attributes, in whatever order, with whatever flag bits, and among whatever other attributes it is described |
| LinkTable.TableReadsBack | crates/honk-core/src/netlink.rs:692-823 | for every table of links, every such description of each, any header flags but the interrupted one, and every cut of the messages into datagrams, the dump returns exactly that table |
| LinkTable.PlainlyIsWell | crates/honk-core/src/netlink.rs:692-753 | every link with texts shorter than 32 KiB has such a description |
| LinkTable.MessagesBehindForeignAreLost | crates/honk-core/src/netlink.rs:764-767 | whatever follows a foreign message in its datagram is lost, though the dump succeeds |
| LinkTable.LoopbackIsLost | crates/honk-core/src/netlink.rs:764-767 | an input where a well-formed link of the own request is lost that way, and is read where the foreign message is absent |
| SourceTables.DiagnosticSources.constructor | crates/honk-config/src/diagnostic.rs:25-30 | a table starts with its root |
| SourceTables.DiagnosticSources.Add | crates/honk-config/src/diagnostic.rs:39-48 | adding keeps parents before children and every earlier reference's chain |
| SourceTables.MarkAncestry | crates/honk-core/src/config_diagnostics.rs:202-217 | marking stops early at a marked source and still marks the whole chain, because marks stay closed under parents |
| Projection.Projector.TableFor | crates/honk-core/src/config_diagnostics.rs:184-200 | a table is found by identity or recorded once as it is then; tables may grow afterwards |
| Projection.Projector.PushBucket | crates/honk-core/src/config_diagnostics.rs:176-182 | pushing keeps exactly the needed sources marked and queues the rows in order |
| Projection.NumberTable | crates/honk-core/src/config_diagnostics.rs:222-238 | marked sources get consecutive numbers, and a parent's number is known when its child needs it |
| Projection.Projector.Finish | crates/honk-core/src/config_diagnostics.rs:219-268 | every row points at the number of its source |
| Projection.AllRowsDense | crates/honk-core/src/config_diagnostics.rs:219-240 | ids are positions and parents come first, across all tables |
| Projection.ChainMaps | crates/honk-core/src/config_diagnostics.rs:219-240 | the published chain of a source is its own chain, source for source |
| Projection.FinishedIsFaithful | crates/honk-core/src/config_diagnostics.rs:176-268 | the snapshot keeps each row's text and whole chain ordinal for ordinal, merges exactly the sources that are one source, and holds only sources some row needs |
| Projection.FaithfulToGrownTables | crates/honk-core/src/config_diagnostics.rs:176-268 | the snapshot is as faithful to source tables that grew while it was made |
| DiagnosticSnapshot.PushedCount | crates/honk-core/src/config_diagnostics.rs:68-87 | how often each provider's bucket is shown |
| DiagnosticSnapshot.EveryBucketOnceExactly | crates/honk-core/src/config_diagnostics.rs:68-87 | every bucket is shown once if and only if each named one is named by one subscription and is the first with its id |
| DiagnosticSnapshot.ListedTwiceShownTwice | crates/honk-core/src/config_diagnostics.rs:68-87 | an input where a subscription listed twice shows its provider twice |
| DiagnosticSnapshot.DiagnosticBuckets.ReplaceProvider | crates/honk-core/src/config_diagnostics.rs:30-41 | replacing keeps a bucket's position and distinct ids distinct |
| DiagnosticSnapshot.DiagnosticBuckets.Collect | crates/honk-core/src/config_diagnostics.rs:68-86 | static diagnostics come first, then providers in subscription order, then the others |
| DiagnosticSnapshot.DiagnosticBuckets.Snapshot | crates/honk-core/src/config_diagnostics.rs:68-87 | the whole snapshot is faithful to the diagnostics in that order |
| Ranking.BeforeTotal | crates/honk-core/src/native_api.rs:506-513 | candidates with different ids are always ordered |
| Ranking.BeforeTransitive | crates/honk-core/src/native_api.rs:506-513 | the order is transitive |
| Ranking.RankedUnique | crates/honk-core/src/native_api.rs:506-513 | a ranked listing is determined by what it lists |
| Ranking.SortedRanked | crates/honk-core/src/native_api.rs:611-619 | the reference listing is ranked |
| Ranking.SortedKeeps | crates/honk-core/src/native_api.rs:611-619 | and holds exactly what was given |
| Ranking.TakeInsert | crates/honk-core/src/native_api.rs:595-608 | dropping what is beyond the limit before or after an insertion is the same |
| Listing.CandidateHeap.Peek | crates/honk-core/src/native_api.rs:595-601 | the top of the heap is the worst candidate kept |
| Listing.CandidateHeap.Pop | crates/honk-core/src/native_api.rs:602-603 | popping removes one worst candidate |
| Listing.CandidateHeap.IntoSorted | crates/honk-core/src/native_api.rs:611-619 | emptying the heap gives its content ranked |
| Listing.BestWhenFull | crates/honk-core/src/native_api.rs:595-608 | a full listing refuses a candidate exactly when it is not before the worst one kept, and otherwise replaces that one |
| Listing.LeftOutIsWorse | crates/honk-core/src/native_api.rs:595-608 | what is left out is behind everything listed |
| Listing.VisitOne | crates/honk-core/src/native_api.rs:595-608 | one visit keeps the heap at the best candidates seen |
| Listing.SelectBest | crates/honk-core/src/native_api.rs:569-609 | one pass keeps the best and counts every match by network |
| Listing.Connections | crates/honk-core/src/native_api.rs:556-630 | the listing is filter, sort newest first with ties by id, keep the first limit, split by network; totals count all matches and truncated tells exactly whether one was left out; an unknown kind is refused |
| Listing.ListingIgnoresVisitOrder | crates/honk-core/src/native_api.rs:569-609 | the listing does not depend on the order of the visit |
| StateReset.StepKeepsInv | crates/honk-core/src/state.rs:413-470 | every step of opening, resetting, failing and crashing keeps the directory invariant |
| StateReset.RunKeepsInv | crates/honk-core/src/state.rs:413-470 | so does every run with any number of processes and restarts |
| StateReset.ReachableInv | crates/honk-core/src/state.rs:222-264 | whatever opens, checks, uses and administers the database meanwhile, every reachable state has at most one exclusive holder and a log only beside its own database or saved with it |
| StateReset.SavedCopiesStay | crates/honk-core/src/state.rs:425-454 | a saved copy is never overwritten or removed |
| StateReset.DatabaseIsNeverLost | crates/honk-core/src/state.rs:441-454 | a database is in place or saved, forever |
| StateReset.WalIsNeverLost | crates/honk-core/src/state.rs:441-454 | in every run a write-ahead log is in place or saved until SQLite removes that very log, however many others come and go |
| StateReset.ResetIsAlone | crates/honk-core/src/state.rs:415-423 | while a reset is under way nobody has the database open |
| StateReset.NewDatabaseStartsWithoutWal | crates/honk-core/src/state.rs:441-454 | wherever a reset was interrupted, a new database is never created beside an old one's log |
| StateReset.NewDatabaseBesideShmExactly | crates/honk-core/src/state.rs:441-464 | a new database is created beside an old `-shm` exactly if some reset ended between moving that database and deleting its `-shm` |
| StateReset.CrashedResetLeavesShm | crates/honk-core/src/state.rs:441-464 | a run that does so |
| StateReset.SavedPairBelongsTogether | crates/honk-core/src/state.rs:441-454 | a saved log belongs to the saved database, even when different attempts saved them |
| StateReset.UninterruptedReset | crates/honk-core/src/state.rs:413-470 | a process that is not interrupted ends with both files saved and a new database |
| StateReset.Directory.Rename | crates/honk-core/src/state.rs:801-826 | renaming never replaces its target |
| StateReset.Directory.CreateExclusive | crates/honk-core/src/state.rs:230-239 | creating never takes an existing file |
| StateReset.Directory.ResetCorrupt | crates/honk-core/src/state.rs:413-470 | nothing changes when the lock is busy or an earlier copy would have to give way; otherwise the directory ends as above |
| Identity.IdentityField | crates/honk-config/src/node.rs:337-355 | the shortcut and the loop both compute the escaped text |
| Identity.UnchangedExactly | crates/honk-config/src/node.rs:337-345 | a field keeps its text exactly when it holds no separator and no backslash |
| Identity.FieldReadsBack | crates/honk-config/src/node.rs:337-355 | an escaped field followed by a separator or by nothing is read back exactly |
| Identity.JoinedEqualExactly | crates/honk-config/src/node/protocol.rs:463-474 | joined fields are equal exactly when the fields are, except that no fields and one empty field look alike |
| Identity.IdentityJoin | crates/honk-config/src/node/protocol.rs:463-474 | the loop joins escaped fields |
| Identity.DecimalReadsBack | crates/honk-config/src/node.rs:310-319 | a port is read back from its digits |
| Identity.MaterialEqualExactly | crates/honk-config/src/node.rs:310-319 | two nodes have equal material exactly when protocol, host, port and remaining text are equal |
| NodeIds.StoredExactly | crates/honk-config/src/config.rs:726-751 | a stored id is followed exactly when one node holds it, and then to that node's derived id |
| NodeIds.RenamedExactly | crates/honk-config/src/config.rs:755-766 | a member is renamed exactly when one node held its id |
| NodeIds.MemberFollows | crates/honk-config/src/config.rs:755-766 | with ids stored apart, a member that named a node is renamed to its new id, even when new ids are the stored ones in another order |
| NodeIds.MemberKeepsItsNodeExactly | crates/honk-config/src/config.rs:726-766 | it then names the same node exactly if no earlier node derived the same id |
| NodeIds.SameContentTakesOver | crates/honk-config/src/config.rs:726-766 | two nodes of one content: a member of the second names the first afterwards |
| NodeIds.DanglesExactly | crates/honk-config/src/config.rs:726-766 | a member dangles exactly if it could not be followed and no node ends up with its id |
| NodeIds.ResolvedMemberDanglesExactly | crates/honk-config/src/config.rs:726-766 | a member that named a node before dangles exactly if its id was unset or shared and no node ends up with it |
| NodeIds.SharedIdDangles | crates/honk-config/src/config.rs:741-746 | an input where a member of two nodes stored under one id names nothing afterwards |
| NodeIds.DedupedKeepsFirstOccurrences | crates/honk-config/src/config.rs:755-766 | member lists keep each value once, in order of first occurrence |
| NodeIds.FollowMembers | crates/honk-config/src/config.rs:754-764 | the loop renames and drops duplicates |
| NodeIds.GroupFollows | crates/honk-config/src/config.rs:754-766 | every member that named a node still has it in the group |
| NodeIds.Config.RederiveNodes | crates/honk-config/src/config.rs:730-749 | all node ids but the built-in ones are derived anew while the stored ones are remembered |
| NodeIds.Config.DeriveNodeIds | crates/honk-config/src/config.rs:726-766 | groups change only if an id did, and then all at once against the ids before |
| NodeIds.SecondRunChangesNothing | crates/honk-config/src/config.rs:726-766 | deriving again changes neither nodes nor groups |

## Left out

- HttpReads.HostReportedExactly: requests whose header names no host or does not end within the bound are covered by the consumed-prefix and bound claims only.
- Sniffer timeouts: a read ends by data, end of stream, timeout or error as the schedule says; clocks are not modelled.
- Persisting a mode request to the cache database (`apply_mode_request`) and logging.
- ConnectionTracker.Tracker.StartClose: whether the UDP pool still knows an endpoint is a parameter; the pool is not modelled.
- ConnectionTracker.Tracker.FinishMatching: takes up after the waits, when every awaited signal is terminal; what happens meanwhile, and that outcomes come in any order, is the subject of `CloseProtocol.dfy`, `CloseGuarantees.dfy` and `BulkClose.dfy`.
- FlagsProtocol.DatapathFlags.Update: one call at a time; interleaving, waiting and cancellation are in the machine of the same file.
- Comparison of socket addresses: a parameter of the bulk close filter and of the listing query.
- Group snapshots and byte counters of the connection tracker: they would only add easy members.
- Sampler ticks and frames: only the lifecycle of channels and tasks is modelled.
- LinkDump.ReadLink: names are the bytes before the lossy conversion to text.
- Sockets, requests and sequence numbering of `NlSock`: incoming datagrams and the request's sequence number are inputs.
- Projection.FinishedIsFaithful: spans, entry indexes and related indexes of diagnostics are left out of the rows; they are copied like the other fields.
- Listing.CandidateHeap.Pop: the heap is modelled by its content; the layout of the library's binary heap and the choice among equal candidates are not.
- Listing.Connections: requires distinct connection ids, which the tracker's map gives, and a positive limit; rendering a connection and parsing the limit are not modelled.
- Contents of database files, SQLite's checks and the schema: a check ends either way, and SQLite may make or remove `-wal` and `-shm` files while the database is open.
- StateReset.WalIsNeverLost: crashes are process crashes; power loss and what `fsync` adds are not modelled.
- Readers that open the database without the directory lock (`query_only` connections).
- UUID hashing, ALPN child ids, and the credential and dial-shape fingerprints: the derived id is a function of a node's content, and the fingerprints are texts.
