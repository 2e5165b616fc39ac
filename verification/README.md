# Verified model of the eBPF agent's flow accounting

The agent counts network flows in eBPF maps shared by all CPUs, falls back to a ring buffer when a map
refuses an insert, aggregates again in user space and merges per-CPU feature records into one exported
record. This project models that path and the parsers and correlation tables beside it, and proves what
holds over every run, every packet sequence or every input. `dafny verify dfyconfig.toml` checks it.

How the source is rendered:

- **Kernel flow map** (`Aggregation`, `Conservation`, `Outcomes`, `Pipeline`): one step is one atomic action of one CPU
  or of user space. Insert results, ring-buffer reservations and the order of steps are chosen by the event,
  so a run is any event sequence. An observer (`Ledger`) writes down what became of every packet; no step
  reads it. User space may take an entry at any point, also between a CPU's lookup and its update.
- **Per-CPU maps** (`PerCpu`, used by `Drops` and `Quic`): the same for one key of a per-CPU map; lookup, insert,
  second lookup, update and the take of user space are separate steps of a state machine (`Stepped`, `Run`), and
  the methods of `PerCpu.Key` move exactly as it does.
- **Objects updated in place** (flow entry, ring of network events, per-CPU values, interface cache, DNS
  table, OpenSSL maps, accounter, limiter, record batches) are classes; their methods follow the source
  branch by branch and are specified against a function of a ghost history or of the old state.
- **Machine integers** are `int` subset types; wrap-around is written with `Wrap` (shown to be the remainder),
  saturation with `Cap`. Flag words are sets of bit positions, so that `|` is union.
- **Packet buffers** are byte sequences; `Loads` is the success condition of `bpf_skb_load_bytes`.
- **Longest-prefix tables and hash maps** are Dafny maps. Clocks, insert results, ring-buffer reservations,
  racing CPUs, iteration order and the answers of system calls are parameters.

Results worth noting, because the code does not do what one may expect:

- A packet whose CPU looked its entry up before user space took the entry updates a copy nobody reads.
  `Conservation.LateUpdateHappens` exhibits it and `Conservation.LateExactlyHeld` says exactly which packets
  are affected; all totals are proved with such evictions allowed.
- With exactly one of supported_versions and key_share, the ServerHello parser reports the legacy version;
  `TlsHello.SelectedVersionMissed` shows one and `TlsHello.SelectedVersionReported` gives the exact condition.
- Batches need the capacity-limited subslices: `Records.UnlimitedOverlaps` shows a record changed by the
  next one without them.
- A zero cookie in a network-event ring that is not full lands on an unused slot and is not remembered;
  the ring theorems include such cookies, on the CPU that created the entry and on the others, and
  `NetworkEvents.ZeroCookieForgotten` is a concrete run.
- A drop or a QUIC packet is in no record when its map insert is refused, when its retry finds the key taken
  away again, or when user space takes the key between the lookup and the update in place. `PerCpu.TrackedFate`
  gives the exact condition over every interleaving; `Drops.RefusedIsLost`, `Drops.CaughtIsLost` and
  `Quic.RefusedIsLost` are concrete runs.
- A DNS response looks its query up and deletes it in two calls, so two CPUs can be served by one query:
  `DnsTracker.OneQueryServesTwo` shows it and `DnsTracker.ServesTwiceBeforeDelete` says exactly when.

## Model

| member | source | states |
|---|---|---|
| `Pipeline.EveryPacketExportedOnce` | bpf/flows/flows.c:215-281 | For every interleaving of the CPUs and every accounter run over the ring records (in order, ticks at any time, then close), and for every flow: taken records, live entry and accounter batches add up (mod 2^32 packets, 2^64 bytes) to its counted packets plus its ring packets, both being exactly the arrived packets with that fate, once each; no batch repeats an id |
| `Pipeline.MergedIsExported` | pkg/flow/account.go:58-100 | Whatever merges to the ring records of a flow completes what the map exports of it |
| `Conservation.SixOutcomes` | bpf/flows/flows.c:215-281 | When no entry is taken between a lookup and its update, every finished packet has exactly one of: counted in the map, seen on another interface, sent by ring buffer, update failed, create failed, refused by the ring buffer |
| `Outcomes.OutcomeIsTold` | bpf/flows/flows.c:215-281 | For every run and every packet, its fate, or where its CPU is, is exactly the one that the packet's own steps lead to; the steps, and which element a lookup found, are read off the events alone |
| `Outcomes.WhichOutcome` | bpf/flows/flows.c:215-281 | A settled packet went to the ring buffer, or was refused there, iff its own insert was refused and there is a ring buffer; was not created iff refused without one; was not updated iff its insert found the key made and its second lookup missed it; is in an element iff its insert made it or one of its lookups found it; and a packet that finds its key never inserts |
| `Outcomes.RingRecordIs` | bpf/flows/flows.c:256-276 | A ring record is that of its one packet, with the error that the packet's own insert gave |
| `Outcomes.RunTable` | bpf/flows/flows.c:215-252 | In every run the table maps a key to the element of the last successful insert for it, unless it was taken since |
| `Outcomes.NeverStuck` | bpf/flows/flows.c:215-281 | A packet that is not settled can always take its next step, whatever the map and the ring buffer answer; an insert can succeed iff the key is missing |
| `Outcomes.AlwaysOpen` | bpf/flows/flows.c:215-281 | An idle CPU can take a packet at any time, and user space can take exactly the flows in the table |
| `Aggregation.StepKeepsInv` | bpf/flows/flows.c:215-281 | Every atomic step of any CPU or of user space keeps the invariant tying map, CPUs, ring, counters and taken records to the fates of packets |
| `Aggregation.EveryRunIsAccounted` | bpf/flows/flows.c:215-281 | The invariant holds after every run |
| `Aggregation.CountersMove` | bpf/common/packet_utils.h:11-20 | A failure counter of a CPU rises by one, wrapping, exactly in the step that fails that CPU's packet, and no other counter moves |
| `Aggregation.KeepsHandovers` | pkg/tracer/flows/fetcher.go:1027-1058 | Taking entries away hands over the element's packets so far, no element twice, and later updates never change what was handed over |
| `Conservation.EveryPacketOnce` | bpf/flows/flows.c:215-281 | Every arrived packet is on one CPU or has exactly one fate; merged packets are in exactly that element, once, ring packets in the ring once, and failure counters equal the number of packets that failed there |
| `Conservation.FlowTotals` | bpf/flows/flows.c:215-281 | Per flow, packets mod 2^32 and bytes mod 2^64 over taken records and the live entry equal those of the counted packets |
| `Conservation.FlowPackets` | bpf/flows/flows.c:215-281 | The counted packets are exactly those merged in time on the first-seen interface of their element, without repeats |
| `Conservation.LateExactlyHeld` | bpf/flows/flows.c:215-218 | Once the CPUs are idle, the packets an element taken by user space misses are exactly those held between lookup and update when it was taken |
| `Conservation.LateUpdateHappens` | bpf/flows/flows.c:215-218 | A concrete run in which such a packet is in no record |
| `FlowEntry.Entry.constructor` | bpf/flows/flows.c:221-238 | A new entry has the value made from its first packet |
| `FlowEntry.Entry.AddObservedIntf` | bpf/flows/flows.c:70-90 | The search loop and append give the observed table that the specification function gives, other fields unchanged |
| `FlowEntry.Entry.NoteTls` | bpf/flows/flows.c:105-119 | The TLS fields become those of the specification function |
| `FlowEntry.Entry.Update` | bpf/flows/flows.c:92-137 | The locked update gives the specified entry, whose meaning over any history is proved in the rows below |
| `FlowHistory.ReplayPackets` | bpf/flows/flows.c:92-137 | After any packet sequence the packet counter is the number of packets on the first-seen interface, wrapped |
| `FlowHistory.ReplayBytes` | bpf/flows/flows.c:92-137 | The byte counter is the sum of their lengths, wrapped |
| `FlowHistory.TlsOfHistory` | bpf/flows/flows.c:98-119 | The stored version is the first non-zero hello version on the first-seen interface, the misc flags are the mismatch bit alone iff two such packets disagree and else empty, the types are the union |
| `FlowHistory.AgreeOnFirst` | bpf/flows/flows.c:105-113 | Without a mismatch every non-zero hello version of the interface is the stored one |
| `FlowHistory.ObservedOfHistory` | bpf/flows/flows.c:70-90 | At most six distinct interfaces, never the first-seen one nor 0, exactly those seen up to the packet that filled the table, with direction BOTH iff both were seen by then |
| `FlowHistory.ChoicesOfHistory` | bpf/flows/flows.c:113-118 | Cipher suite and key share are those of the last ServerHello on that interface that gave one, else of the first packet |
| `FlowHistory.ReplayFlags` | bpf/flows/flows.c:98-125 | The flags are exactly those of the packets on the first-seen or another real interface |
| `FlowHistory.ReplayEnd` | bpf/flows/flows.c:98-125 | The end time is that of the last such packet |
| `FlowHistory.ReplayLast` | bpf/flows/flows.c:98-104 | DSCP and sampling are those of the last packet on the first-seen interface |
| `FlowHistory.ReplayFirst` | bpf/flows/flows.c:221-234 | Interface, direction, start time, protocol and MACs stay those of the first packet |
| `FlowHistory.ReplayTimes` | bpf/flows/flows.c:92-102 | With a clock that does not run backwards, sequential updates keep start at most end |
| `TlsTracker.ReadClientHello` | bpf/tls_tracker.h:43-129 | The nested loops over offsets compute the parse function on every buffer; the 32-bit offset never wraps, the 16-bit one wraps as in the source |
| `TlsTracker.ReadServerHello` | bpf/tls_tracker.h:131-209 | The same for the ServerHello |
| `TlsTracker.TrackTcp` | bpf/tls_tracker.h:211-280 | TCP offset, record and handshake headers are followed as the parse function says, for every buffer |
| `TlsHello.ClientHelloRead` | bpf/tls_tracker.h:43-129 | Every well-formed ClientHello of sections 4.1.2 and 4.2.1 of RFC 8446 with legacy version 0x0303 and extensions is matched wherever it stands; the version is the best of the first five offered when supported_versions is among the first thirty extensions, else 0x0303 |
| `TlsHello.ClientOffsetsStraight` | bpf/tls_tracker.h:82-125 | On a well-formed ClientHello no sum of the 16-bit extension offset wraps |
| `TlsHello.OfferKeepsBest` | bpf/tls_tracker.h:98-118 | The version loop keeps the highest known version, or the highest offered when none is known |
| `TlsHello.ServerHelloRead` | bpf/tls_tracker.h:131-209 | Every well-formed ServerHello of section 4.1.3 of RFC 8446 without repeated extensions yields its cipher suite, and version and group as the extensions within the first thirty say |
| `TlsHello.ServerOffsetsStraight` | bpf/tls_tracker.h:168-206 | On a well-formed ServerHello no sum of the 16-bit extension offset wraps |
| `TlsHello.SelectedVersionReported` | bpf/tls_tracker.h:200-207 | The selected version is reported iff both extensions are read, or it is 0x0303 |
| `TlsHello.SelectedVersionMissed` | bpf/tls_tracker.h:200-207 | A printed ServerHello whose only extension selects 0x0304 is reported as 0x0303 |
| `TlsSegment.TrackClient` | bpf/tls_tracker.h:211-280 | The parser, run on any TCP segment that carries a well-formed ClientHello record with its TCP header in the linear part, matches it and reports the best offered version |
| `TlsSegment.ClientSegment` | bpf/tls_tracker.h:230-280 | From the TCP payload on, the parse function does so |
| `TlsSegment.TrackServer` | bpf/tls_tracker.h:211-280 | The same for a ServerHello record: cipher suite, version and group as its extensions say |
| `TlsSegment.ServerSegment` | bpf/tls_tracker.h:230-280 | From the TCP payload on, the parse function does so |
| `TlsSegment.Assembled` | bpf/tls_tracker.h:211-229 | Lower headers, TCP header, payload and trailing bytes put together are such a segment |
| `TlsSegment.PlainRecord` | bpf/tls_tracker.h:229-280 | A record of type 0x14, 0x15 or 0x17 and version 3.0 to 3.3 gives exactly bit 3, 4 or 5; any other type but a handshake, and any other version, is not TLS |
| `TlsSegment.HandshakeRecord` | bpf/tls_tracker.h:240-267 | A handshake other than a hello gives bit 2 iff it is 0x0b, 0x0c, 0x0e or 0x10, else it is undecided |
| `TlsSegment.OldHello` | bpf/tls_tracker.h:52-54 | A hello of legacy version 3.0 to 3.2 is reported with that version; of a version outside 3.0 to 3.3 it is undecided |
| `TlsSegment.ShortRecord` | bpf/tls_tracker.h:226-246 | A segment that ends inside the record header or before the handshake type is not TLS |
| `TlsSegment.TrackRecord` | bpf/tls_tracker.h:211-280 | The parser run on a segment that carries any record reports as the three rows above say |
| `TlsSegment.TrackOldHello` | bpf/tls_tracker.h:211-280 | The parser run on a segment that carries a hello of another legacy version reports it |
| `TlsSegment.ClientVerdicts` | bpf/tls_tracker.h:43-129 | Any bytes taken for a ClientHello are matched or undecided, with bit 0 iff a version 3.0 to 3.3 was read, and never a cipher suite or group |
| `TlsSegment.ClientCutEarly` | bpf/tls_tracker.h:56-82 | A ClientHello cut before its extensions is undecided without a version |
| `TlsSegment.VersionsCutAt` | bpf/tls_tracker.h:95-119 | A supported_versions extension cut behind its m-th version leaves the best of those m, undecided |
| `TlsSegment.ServerVerdicts` | bpf/tls_tracker.h:131-209 | Any bytes taken for a ServerHello are matched or undecided, with bit 1 iff a version 3.0 to 3.3 was read |
| `TlsSegment.ServerCutEarly` | bpf/tls_tracker.h:144-166 | A ServerHello cut before its extensions is undecided, with its cipher suite iff that was there |
| `TlsSegment.TurnWraps` | bpf/tls_tracker.h:84-125 | Behind an extension of any claimed length the parsers go on at the sum modulo 2^16 |
| `TlsSegment.MatchSurvivesGrowth` | bpf/tls_tracker.h:43-280 | A match found on a segment cut anywhere is the match on the whole segment |
| `Accounter.Accounter.constructor` | pkg/flow/account.go:42-53 | The cache starts empty and balanced |
| `Accounter.Accounter.Evict` | pkg/flow/account.go:102-132 | The batch sent lists every cached flow once with its metrics, in some order |
| `Accounter.ListEntries` | pkg/flow/account.go:120-127 | Iterating the map lists every flow exactly once with its metrics |
| `Eviction.Evict` | pkg/flow/account.go:102-132 | Every cached flow becomes exactly one record with its key and metrics, without latency, RTT, events and drops; no two records share cells they may write |
| `Accounter.Accounter.OnTick` | pkg/flow/account.go:63-71 | A tick sends what was recorded since the last batch as one batch, nothing iff there is nothing, and empties the cache |
| `Accounter.Accounter.OnRecord` | pkg/flow/account.go:82-96 | A record is merged into the cache; what was there is sent first, as one batch, iff the flow is new and the cache full |
| `Accounter.Accounter.OnClose` | pkg/flow/account.go:73-81 | The cache is sent as one batch, after which the batches of every flow merge to what all its inputs merge to |
| `Accounter.Accounter.Account` | pkg/flow/account.go:58-100 | For every run of records, ticks and close: the batches sent are those of the groups of records below, one entry for each flow with its records merged in order, then at the close the rest; the cache holds the rest; batches plus cache balance with the inputs, the cache is at most max(1, maxEntries), no batch repeats an id |
| `Accounter.SentWhen` | pkg/flow/account.go:63-96 | A group is closed at a tick that finds records and at a record of a new flow that finds maxEntries flows, and at no other input |
| `Accounter.PendingAfter` | pkg/flow/account.go:63-96 | After a tick nothing is pending, after a batch caused by a record only that record |
| `Accounter.GroupsPartition` | pkg/flow/account.go:58-100 | The groups and what is pending are the records read, each once, in order |
| `Accounter.TotalsKept` | pkg/flow/account.go:58-100 | Balance means equal bytes, packets (modulo their widths) and flags |
| `Limiter.Limiter.Offer` | pkg/flow/limiter.go:30-37 | A batch is forwarded in order iff there is room (or no buffer), else its records are added to the dropped counter; the send never has to wait, whatever the reader does in between |
| `Limiter.Limiter.Limit` | pkg/flow/limiter.go:28-38 | Over any input and any moves of the reader: what is forwarded is a subsequence of the input, and records received equal records forwarded plus the dropped counter |
| `Accumulate.MergedBaseMonoid` | pkg/model/flow_content.go:28-61 | AccumulateBase is associative with nil as identity |
| `Accumulate.MergeAllConcat` | pkg/model/flow_content.go:28-61 | Any regrouping of ordered contributions gives the same flow |
| `Accumulate.MergeAllBytes` | pkg/model/flow_content.go:42 | Merged bytes are the sum modulo 2^64 |
| `Accumulate.MergeAllPackets` | pkg/model/flow_content.go:43 | Merged packets are the sum modulo 2^32 |
| `Accumulate.MergeAllFlags` | pkg/model/flow_content.go:44 | Merged flags are the union |
| `Accumulate.MergeAllTimes` | pkg/model/flow_content.go:36-41 | The merged start is the smallest that is set, the end the largest |
| `Accumulate.MergeAllMacs` | pkg/model/flow_content.go:48-53 | Each merged MAC is the first that is not all zeros, or the last one |
| `Accumulate.MergeAllLast` | pkg/model/flow_content.go:45-59 | Merged DSCP, sampling and protocol are the last non-zero ones, or zero |
| `Accumulate.MergeAllFirst` | pkg/model/flow_content.go:28-61 | Interface, direction, errno, observed table and TLS stay those of the first contribution |
| `FlowContent.Flow.AccumulateBase` | pkg/model/flow_content.go:28-61 | The in-place merge is the operation whose every field the rows above describe |
| `FlowContent.Flow.BuildBaseFromAdditional` | pkg/model/flow_content.go:63-74 | Times move to the earliest start and latest end, the protocol is filled when unset, nothing else changes |
| `FlowContent.Flow.AccumulateDrops` | pkg/model/flow_content.go:98-117 | The in-place merge of drop metrics is the specified one |
| `FlowContent.Flow.AccumulateAdditional` | pkg/model/flow_content.go:154-177 | RTT becomes the larger; the IPsec status is that of the larger return code, encrypted winning ties |
| `FlowContent.Flow.AccumulateQuic` | pkg/model/flow_content.go:179-198 | Version and flags become the larger ones |
| `FlowContent.AnyOrder` | pkg/model/flow_content.go:28-74 | Start, end, bytes, packets, flags, drop counts, RTT, IPsec status and QUIC fields are the same for every order of merging CPUs and features |
| `FlowContent.MergedTimes` | pkg/model/flow_content.go:63-74 | The merged start is the smallest non-zero start, the end the largest end, over all contributions |
| `FlowContent.BaseMerged` | pkg/model/flow_content.go:28-74 | But for times and protocol, the base of a flow is the merge of its base records, whatever features come in between |
| `FlowContent.ProtocolMerged` | pkg/model/flow_content.go:45-74 | The protocol is that of the last base record that has one, else the flow's own, else that of the first record that has one |
| `FlowContent.FeaturesMerged` | pkg/model/flow_content.go:98-198 | Each feature of a flow is the merge of that feature's records, and of no other, in order |
| `FlowContent.DropsMerged` | pkg/model/flow_content.go:98-117 | Merged drops: capped totals, all flags, the last non-zero cause and state, times and protocol of the first record |
| `FlowContent.AdditionalMerged` | pkg/model/flow_content.go:154-177 | The largest RTT and IPsec return code, encrypted iff some record with that code is |
| `FlowContent.QuicMerged` | pkg/model/flow_content.go:179-198 | The largest version and form flags, times of the first record |
| `Saturating.AddsSaturate` | bpf/utils.h:160-166 | The kernel's and Go's wrap-detecting additions are both the sum capped at 65535 |
| `Saturating.AddsCommute` | pkg/model/flow_content.go:209-215 | Capped additions can be done in any order |
| `Saturating.CapAdd` | pkg/model/flow_content.go:209-215 | Capping before or after adding gives the same |
| `PerCpu.RunSound` | bpf/pkt_drops.h:71-101 | In every run of any CPUs and user space: the packets that came to a CPU are those done there, in order, and then the one it is at work on; every packet done is exactly one of taken with the key, shown by the live key, or lost; a pointer to the present incarnation means the key is there |
| `PerCpu.RunGrows` | bpf/pkt_drops.h:71-101 | A run adds to the packets done exactly those whose CPU becomes idle, and never forgets a packet taken, lost or arrived |
| `PerCpu.LiveMeans` | bpf/pkt_drops.h:88-94 | After any run the key is there iff it was there before, or some CPU's insert created it, and no take came after |
| `PerCpu.TrackedFate` | bpf/pkt_drops.h:71-101 | For every interleaving around one packet: its last action makes the live key show it iff it found the key and no take came before its update; or the key was missing in the state of its insert, which had room; or the key was there then and in the state of its retry, and no take came before the update. Else the packet is lost |
| `PerCpu.KeptBySteps` | bpf/pkt_drops.h:71-101 | The same condition in terms of which steps created the key and which took it |
| `PerCpu.TrackedIsRun` | bpf/pkt_drops.h:71-101 | What happens around one packet is a run of the state machine |
| `PerCpu.TrackedQuietly` | bpf/pkt_drops.h:71-101 | With nothing in between, a packet is lost iff the key is missing and its insert is refused |
| `PerCpu.Key.Look` | bpf/pkt_drops.h:10-12 | The lookup of a packet leads to the live incarnation of the key, or to the insert; values stay the replay of the packets shown |
| `PerCpu.Key.Insert` | bpf/pkt_drops.h:88-94 | The insert shows the packet iff the key is missing and there is room, loses it iff missing without room, and leads to the retry iff another CPU was faster |
| `PerCpu.Key.LookAgain` | bpf/pkt_drops.h:92-97 | The retry leads to the update iff the key is still there, else the packet is lost |
| `PerCpu.Key.Write` | bpf/pkt_drops.h:12-19 | The update is shown by the key iff the incarnation looked up is still the live one; else it changes no value that user space can take |
| `PerCpu.Key.Take` | pkg/tracer/flows/fetcher.go:1137-1142 | The take returns the CPUs' values, each the replay of that CPU's packets among those shown, which move to the taken ones; an error iff the key is missing; the CPUs stay where they are |
| `PerCpu.Key.Meanwhile` | bpf/pkt_drops.h:71-101 | Any steps of the CPUs and of user space move the key exactly as the state machine's run, each CPU's value staying the replay of its packets shown |
| `PerCpu.Key.Track` | bpf/pkt_drops.h:71-101 | With any steps of the others in the gaps, what a CPU does for a packet ends in the state of `TrackedFate`: shown under exactly that condition, else lost, with all that the others did |
| `PerCpu.MergeListed` | pkg/tracer/flows/fetcher.go:1143-1148 | The accumulation loop over the CPUs' values is the fold whose totals the report rows give |
| `Drops.UpdateFlow` | bpf/pkt_drops.h:10-23 | The writes keep the value a tally of its CPU's drops: capped counts, and the last drop's time, state, flags and cause |
| `Drops.ReplayTallies` | bpf/pkt_drops.h:71-101 | What creation and updates leave on a CPU after any drops is the tally of exactly its own drops, all zero without one; start and protocol are those of the creating drop on its CPU only |
| `Drops.Trace` | bpf/pkt_drops.h:71-101 | A drop ends in the tally of its CPU under exactly the condition of `PerCpu.TrackedFate`, else it is lost, and the others' steps have their own effect; every CPU's value tallies exactly the drops shown |
| `Drops.RefusedIsLost` | bpf/pkt_drops.h:88-99 | A drop whose insert is refused is in no value |
| `Drops.CaughtIsLost` | bpf/pkt_drops.h:12-19 | A drop whose key is taken between its lookup and its update is in no value, taken or live |
| `Drops.Report` | pkg/model/flow_content.go:98-117 | Taking the key and merging the values it returns reports min(65535, true total) of packets and bytes of exactly the drops taken with it, and nothing iff there are none |
| `Drops.DropsReported` | pkg/model/flow_content.go:98-117 | The same for any split over CPUs and any merge order |
| `Records.Append` | pkg/model/record.go:123-133 | Go's append: in place within the capacity, else a new array; cells outside the slice's region never change |
| `Records.ElapsedExact` | pkg/model/record.go:108-115 | The unsigned clock difference read as signed is the true difference, whichever clock is ahead, iff that fits 64 bits |
| `Records.NewRecordInto` | pkg/model/record.go:98-177 | The record holds what the two rows below say, and only that record and its region change |
| `Records.RecordLists` | pkg/model/record.go:119-133 | A record lists the first interface and then the observed ones in order, each named with its own index and the destination MAC on ingress, the source MAC on egress, with its own direction, and UDN empty for an unlisted name, "default" for an empty one, else the listed one |
| `Records.RecordTells` | pkg/model/record.go:106-177 | A record has the flow's key and metrics, starts and ends as long before now as the flow did, and tells latency, RTT, events and drops of the features that the flow has |
| `Records.DecodeEvents` | pkg/model/record.go:145-176 | The loop over the event slots gives the texts and the drops that the two functions below describe |
| `Records.TextsAreTold` | pkg/model/record.go:148-156 | The texts listed are exactly those decoded from slots in use |
| `Records.TextsDistinct` | pkg/model/record.go:151-156 | No text is listed twice |
| `Records.TextsInOrder` | pkg/model/record.go:148-156 | More slots only add texts behind: the texts are in the order of the slots that first tell them |
| `Records.InjectedCounts` | pkg/model/record.go:157-172 | The record's drop packets and bytes are those of the flow plus those of its drop events, capped at 65535; there are none iff neither has any |
| `Records.InjectedCause` | pkg/model/record.go:157-172 | The cause is that of the last event that tells of a drop; without one the drops are those of the flow |
| `Records.InjectedRest` | pkg/model/record.go:159-166 | The other drop metrics stay those of the flow; when it has none they start and end with the events |
| `Records.BuildBatch` | pkg/flow/account.go:105-127 | For any entries and any number of observed interfaces, all records of a batch built in shared arrays hold what records on fresh storage hold, and no two of them share cells they may write |
| `Records.Rewrite` | pkg/flow/tracer_map.go:122-139 | Writing one record of a batch again leaves every other one and its listing as they are |
| `Records.UnlimitedOverlaps` | pkg/model/record.go:95-97 | Without the capacity limit a second record changes what the first lists |
| `Filter.LongestIsLongest` | bpf/common/filter.h:49 | The lookup gives the value of the longest prefix in the table, or none when no prefix is there |
| `Filter.SetupLookupKey` | bpf/common/filter.h:16-41 | The key holds exactly the address bits of the chosen side, also when reused |
| `Filter.DoFilterLookup` | bpf/common/filter.h:43-224 | The result is positive iff the rule found holds with all its clauses; action and sampling are those that survive the early exits |
| `Filter.MatchPeer` | bpf/common/filter.h:61-86 | The peer lookup succeeds iff the packet is IP and some peer prefix covers the other address |
| `Filter.MatchClauses` | bpf/common/filter.h:93-219 | Protocol, direction and drop clauses all hold iff the count added is not negative |
| `Filter.MatchProtocol` | bpf/common/filter.h:94-199 | The protocol switch succeeds iff port, flag and ICMP clauses hold |
| `Filter.MatchesFilter` | bpf/common/filter.h:229-260 | The two lookups give the declarative outcome: source rule if it holds, else destination rule |
| `Filter.Checker.IncreaseCounter` | bpf/common/packet_utils.h:11-20 | Whether the counter is there or not, every counter shows how many packets got its verdict so far, modulo 2^32 |
| `Filter.Checker.CheckAndApply` | bpf/common/packet_utils.h:175-219 | The packet is skipped iff the declarative verdict says so, it is given exactly that one verdict, and the counters keep showing the verdicts |
| `Filter.CountsPartition` | bpf/common/packet_utils.h:188-216 | Over any run the three counts add up to the number of checked packets |
| `Filter.VerdictInWords` | bpf/common/packet_utils.h:175-219 | For all tables: the holding source rule decides, else the holding destination rule, with the source rule's action when it has none; Reject skips and is counted as rejected, Accept keeps and is counted as accepted, no action skips as unmatched; when none holds the packet is unmatched and kept only if the last surviving action is Reject; packets other than IP are skipped as unmatched |
| `Filter.VerdictOfDecisiveTables` | bpf/common/filter.h:229-260 | With Accept and Reject rules only, a rule that holds gives its own verdict, both ways |
| `Filter.SamplingInWords` | bpf/common/filter.h:88-92 | The sampling is that of the last rule consulted that asks for one and whose peer check does not fail, also when another clause fails |
| `Filter.RuleIsOfAddress` | bpf/common/filter.h:16-49 | The rule for a side is that of the longest prefix in the table that the packet's own address starts with, IPv4 in the last four bytes |
| `Filter.PeerIsOther` | bpf/common/filter.h:61-86 | The peer check holds iff some peer prefix covers the packet's other address |
| `Filter.BitsOfByte` | bpf/common/filter.h:16-41 | A byte is the sum of the weights of the bits looked up, most significant first |
| `Filter.PortsSelect` | bpf/common/filter.h:99-160 | One port, a range with both ends, or two ports |
| `Filter.PortClauses` | bpf/common/filter.h:99-160 | Destination, source and either-port clauses select by those ports, for TCP, UDP and SCTP |
| `Filter.OtherClauses` | bpf/common/filter.h:161-219 | Protocol, flags, ICMP, direction and drop clauses, each alone |
| `Filter.ClausesTogether` | bpf/common/filter.h:93-219 | A rule holds iff each of its clauses holds alone |
| `Filter.NoRulesSkipAll` | bpf/common/packet_utils.h:206-216 | With no rules every checked packet is skipped as unmatched |
| `DnsTracker.MirroredKeys` | bpf/dns_tracker.h:22-36 | A response's key equals a query's iff the 5-tuple is mirrored and the ids agree |
| `DnsTracker.Tracker.OnQuery` | bpf/dns_tracker.h:103-110 | The table keeps the time of the oldest open query of every key |
| `DnsTracker.Tracker.OnResponse` | bpf/dns_tracker.h:111-121 | Lookup and delete with nothing in between: the latency is the time since the oldest open query with the mirrored key, ENOENT iff there is none |
| `DnsTracker.Tracker.OnLookup` | bpf/dns_tracker.h:111-116 | The lookup alone reports the time since the query it is matched with, ENOENT iff there is none, and the table stays |
| `DnsTracker.Tracker.OnDelete` | bpf/dns_tracker.h:116 | The delete, at any later time, closes whatever queries of the key are open by then |
| `DnsTracker.Tracker.Track` | bpf/dns_tracker.h:99-122 | The packet is logged with its time, a query refused iff the table is full without an open query of its key; a response reports the time since the query it is matched with, ENOENT iff there is none |
| `DnsTracker.Tracker.Run` | bpf/dns_tracker.h:99-122 | Over any sequence of packets, lookups and deletes of responses on several CPUs, and purges, every response reports the time since the query it is matched with in that run, or ENOENT iff there is none |
| `DnsTracker.ServesAgain` | bpf/dns_tracker.h:111-121 | A query that served a response serves a later one of the same key iff nothing closed the key since the first lookup |
| `DnsTracker.ServesTwiceBeforeDelete` | bpf/dns_tracker.h:113-116 | A query serves a second response iff its lookup comes before the first delete that follows the first lookup |
| `DnsTracker.OneQueryServesTwo` | bpf/dns_tracker.h:113-116 | A concrete run of two CPUs in which one query serves two responses |
| `DnsTracker.ServesOnce` | bpf/dns_tracker.h:111-121 | When every lookup that finds a query is followed by its delete at once, no query serves two responses |
| `DnsTracker.ServedByOne` | bpf/dns_tracker.h:111-121 | No response is matched with two queries |
| `DnsTracker.LatencyExact` | bpf/dns_tracker.h:111-116 | With a monotone clock the subtraction never wraps |
| `DnsTracker.LatencyReported` | bpf/dns_tracker.h:111-116 | Over any run with a monotone clock every reported latency is the time between the response and its query |
| `NetworkEvents.Ring.constructor` | bpf/network_events_monitoring.h:110-121 | The ring of the CPU that creates the entry is the cache of its first event |
| `NetworkEvents.Ring.Zeroed` | bpf/network_events_monitoring.h:25-31 | The ring that this leaves on another CPU is the empty cache |
| `NetworkEvents.Ring.Exists` | bpf/network_events_monitoring.h:10-17 | The first slot with the cookie, or -1 when none has it |
| `NetworkEvents.Ring.Update` | bpf/network_events_monitoring.h:19-51 | From either start every event, zero cookies included, keeps the four slots equal to a FIFO cache of the whole history, and the overflow counter equal to how often the index came round |
| `NetworkEvents.FifoDistinct` | bpf/network_events_monitoring.h:31-45 | That cache holds at most four distinct cookies, oldest first |
| `NetworkEvents.FifoCounts` | bpf/network_events_monitoring.h:31-45 | Every slot carries its packets and bytes since its admission |
| `NetworkEvents.AdmissionMeans` | bpf/network_events_monitoring.h:31-45 | An event brings its cookie in iff it is not there, and it is set, or meets a full cache, or creates the entry |
| `NetworkEvents.LatestStay` | bpf/network_events_monitoring.h:31-45 | The cache is what came in last: exactly the admitted events that were not pushed out by later ones |
| `NetworkEvents.RingIsFifo` | bpf/network_events_monitoring.h:31-45 | Each used slot shows its totals since admission capped at 65535, and a full ring writes over the oldest |
| `NetworkEvents.NoDuplicates` | bpf/network_events_monitoring.h:10-17 | No two slots hold the same non-zero cookie |
| `NetworkEvents.ZeroCookieForgotten` | bpf/network_events_monitoring.h:10-45 | A zero cookie that comes first on a zeroed ring is not remembered |
| `Interfaces.CacheIsHistory` | pkg/ifaces/registerer.go:53-87 | In every run the cache maps (index, MAC) to a name iff it was the last name written there and no delete naming it came after |
| `Interfaces.InnerNeverEmpty` | pkg/ifaces/registerer.go:77-79 | Inner maps are never empty |
| `Interfaces.OthersKept` | pkg/ifaces/registerer.go:70-76 | A resolved name never overwrites a present one, and a delete with another name changes nothing |
| `Interfaces.Registerer.OnAdded` | pkg/ifaces/registerer.go:56-66 | The event is applied to the cache and mapSize stays the number of indexes |
| `Interfaces.Registerer.OnDeleted` | pkg/ifaces/registerer.go:67-82 | The event is applied to the cache and mapSize stays the number of indexes |
| `Interfaces.Registerer.OnResolved` | pkg/ifaces/registerer.go:135-150 | The locked re-check respects a name written meanwhile, and the name returned is the one in the cache |
| `Interfaces.Registerer.CacheLookup` | pkg/ifaces/registerer.go:153-195 | A name is found iff the index is known; the exact MAC wins, else a lone entry, else the first applicable preference, else any name of the index |
| `Interfaces.Registerer.NameFor` | pkg/ifaces/registerer.go:121-151 | A known index is answered from the cache, which does not change; for an unknown one, whatever other goroutines do between the two critical sections, the name returned is the current one of the history, theirs if they wrote one |
| `Interfaces.Registerer.Meanwhile` | pkg/ifaces/registerer.go:53-87 | Any sequence of events keeps the cache equal to its history |
| `Interfaces.Matches` | pkg/ifaces/registerer.go:229-241 | A preference applies iff its prefix matches and its interface is among the candidates |
| `OpenSsl.BindingIsHistory` | bpf/openssl_tracker.h:19-66 | In every run without nesting calls, an object of a process is bound to a descriptor iff a call of that process returned 1 with it and no valid entry, free, BIO change, loss or other commit hit the object since |
| `OpenSsl.PendingIsOpen` | bpf/openssl_tracker.h:32-51 | The pending map holds exactly the open calls |
| `OpenSsl.ProcessesAreIsolated` | bpf/openssl_tracker.h:32-66 | The bindings of a process are those its own events alone would give, losses included |
| `OpenSsl.Tracker.OnSetFdEntry` | bpf/openssl_tracker.h:19-40 | The entry probe does to the maps what the event means |
| `OpenSsl.Tracker.OnSetFdReturn` | bpf/openssl_tracker.h:42-56 | So does the return probe |
| `OpenSsl.Tracker.OnFree` | bpf/openssl_tracker.h:58-66 | So does the free probe |
| `OpenSsl.Tracker.OnLosePending` | bpf/maps_definition.h:164-169 | A pending call that the kernel drops from its least-recently-used map is lost in the history too |
| `OpenSsl.Tracker.OnLoseBinding` | bpf/maps_definition.h:157-162 | So is a binding that it drops |
| `OpenSsl.Tracker.Generate` | bpf/tls_plaintext.h:66-99 | The event names the descriptor that history, losses included, binds to the object, or -1 iff there is none, and min(length, 16384) bytes |
| `OpenSsl.Tracker.OnReadEntry` | bpf/openssl_tracker.h:88-105 | The map keeps holding exactly the read each thread is in: the last entry stored with no return since; an entry is refused iff the map is full and the thread is in no read |
| `OpenSsl.Tracker.OnReadReturn` | bpf/openssl_tracker.h:107-130 | An event is made iff the thread is in a read with a buffer that returned data, and it is about that read's buffer and object |
| `OpenSsl.Tracker.OnWrite` | bpf/openssl_tracker.h:68-86 | An event is made iff there is data and a buffer |
| `Quic.ParseHeader` | bpf/quic_tracker.h:82-178 | The sequence of loads computes the parse function on every buffer |
| `Quic.HeaderMeans` | bpf/quic_tracker.h:82-178 | With the payload present: long iff it decomposes as in section 5.1 of RFC 8999 with the fixed bit and connection IDs of at most 20 bytes, short iff the fixed bit is set without the long bit; the version is the header's |
| `Quic.HeaderCut` | bpf/quic_tracker.h:82-178 | In a buffer that ends too early a header is found iff the buffer reaches the source connection ID length (long) or the first byte (short), with the same version |
| `Quic.UpdateFlow` | bpf/quic_tracker.h:233-241 | The writes keep the value a tally of its CPU's packets: form flags and last non-zero version |
| `Quic.ReplayTallies` | bpf/quic_tracker.h:231-270 | What creation and updates leave on a CPU after any packets is the tally of exactly its own packets: form flags, last non-zero version, time of the last; start and protocol are those of the creating packet on its CPU only |
| `Quic.Classify` | bpf/quic_tracker.h:180-227 | The tests in front of the lookup let pass exactly the considered packets with a QUIC header |
| `Quic.Track` | bpf/quic_tracker.h:180-273 | A packet that is not considered or not QUIC changes nothing; a QUIC packet is noted on its CPU under exactly the condition of `PerCpu.TrackedFate`, else it is lost, and the others' steps have their own effect; every CPU's value tallies exactly the packets shown |
| `Quic.TrackAll` | bpf/quic_tracker.h:180-273 | With room in the map and nothing in between, exactly the QUIC packets of any sequence are noted, none lost |
| `Quic.RefusedIsLost` | bpf/quic_tracker.h:242-256 | A QUIC packet whose insert is refused is in no value and user space gets no record |
| `Quic.Report` | pkg/model/flow_content.go:179-198 | Taking the key and merging the values it returns: the record has a form flag iff some packet taken with the key had that form, and the largest of the CPUs' last non-zero versions; there is one iff some packet was taken |
| `Quic.MergedIsReported` | pkg/model/flow_content.go:179-198 | The same for any spread over CPUs and any merge order |
| `Quic.FormsReported` | bpf/quic_tracker.h:228-270 | For complete datagrams the flags say exactly whether some payload had a long or a short header |
| `Quic.AllFormsReported` | bpf/quic_tracker.h:180-273 | When all packets of a flow are considered and complete and all QUIC ones were noted, a form flag is reported iff some payload, QUIC or not, had that form |
| `DnsNames.CopyUntilNul` | pkg/utils/utils.go:22-28 | The copy ends before the first NUL |
| `DnsNames.RawNameToDotted` | pkg/utils/utils.go:20-60 | The result is the dotted join of the labels found, for every buffer |
| `DnsNames.LabelsAreMaximal` | pkg/utils/utils.go:33-58 | The labels fill a prefix of the bytes after which no complete label starts |
| `DnsNames.RoundTrip` | pkg/utils/utils.go:20-60 | Encoding any NUL-free labels of 1 to 63 bytes (section 3.1 of RFC 1035) and decoding gives their dotted form |
| `DnsNames.DecodeRaw` | pkg/utils/utils.go:20-60 | The same for the decoder run on the signed bytes that Go sees |
| `DnsNames.CutDotted` | pkg/utils/utils.go:50-56 | The dotted form of labels without dots gives them back when it is cut at the dots |
| `DnsNames.CutCopy` | pkg/utils/utils.go:20-60 | A copy truncated after n bytes gives exactly the labels whose encoding fits in n bytes |

## Left out

- Exporters, gRPC, Kafka and IPFIX clients, Prometheus, the HTTP server, configuration and the end-to-end tests: I/O and thin wrappers.
- Header parsing in front of the flow map (Ethernet, IP, L4, TCP flags) and the sampling draw: packets enter the model with these fields filled.
- Kernel hash maps and longest-prefix tries are plain maps; prefixes of both IP versions share one table only through their bit length.
- The batch lookup-and-delete of user space and the stale-entry purge are steps that remove entries; their system calls are not modelled.
- The UDP length guard of the DNS header offset and the copy of the query name into the packet: the header offset and the raw name are inputs.
- DNS, translation and network-event records in user space: only their effect on times and protocol is merged (`OfOther`); the network-event merge across CPUs drops known cookies and is not claimed to conserve anything.
- Network-event cookies shorter than 8 bytes: the source compares uninitialised bytes for them.
- Time order under interleaving: the last writer sets the end time, so start at most end is claimed for sequential updates only.
- Aliasing of per-CPU records and of stored metrics pointers in `AccumulateBase` and the other merges: a record merged in is not used by its owner afterwards.
- `Poller`, `Watcher` and the parsing of the preferred-interface setting: the cache is fed with events and parsed rules.
- The legacy eviction path, the OBSERVED_INTF_MISSED counter, log messages, trace prints, log back-off and gauges.
- `is_ipv4`: a byte heuristic about which nothing is claimed.
- The socket tuple and the captured bytes of plaintext events: reads of kernel and user memory.
- Accounter.Accounter.Evict: the batch lists ids with their metrics; the records made of them are stated in `Eviction.Evict`.
- Records.NewRecordInto: network events are listed by their text instead of a field map, and the drop metrics of the flow are a value, not the record's pointer to them.
- The several writes of one update in place are one step: a take in the middle of them, which would copy a value half updated, is not modelled.
- Reuse of a map element by the kernel while a CPU still holds it: an element taken away is never given to another flow, so a late update lands in a copy nobody reads.
- Refused inserts, lost races and takes between lookup and update for network-event entries: rings start created or zeroed.
- The array of counters in the kernel is per CPU: `Filter.Checker` is the filter of one CPU.
