# A verified model of bismark-passive

bismark-passive runs on a home router. It folds the packets it captures into bounded tables, and at
every alarm it writes a *differential* update: only what is new since the update before. A server
that replays the updates has to be able to tell what every id meant. Identifiers are anonymized with
a streaming SHA-1 and HMAC. This project models that code in Dafny and proves what it guarantees.
`dafny verify dfyconfig.toml` checks everything.

## How the model is built

Code that updates a structure in place is a class with the same fields, and each of its methods is
proved to make exactly one transition of a pure step function (`ProcessStep`, `AdvanceStep`,
`WriteStep`, `AddStep`, `LookupStep`, `WriteRing`, `DnsStep`, `PacketStep`, `UpdateStep`, ...). The
theorems are about these transitions and about runs built from them, so they hold of the methods.
`hide` statements only keep definitions away from proofs that do not need them.

| file | what it holds |
|---|---|
| `flow_table.dfy`, `flow_table_properties.dfy` | the hash table of flows; its invariant; the table as a map from 5-tuple to slot and time |
| `packet_series.dfy`, `address_table.dfy` | the delta-encoded packets; the ring of (IP, MAC) pairs |
| `router.dfy` | the steps of `main.c` over all tables |
| `replication.dfy`, `runs.dfy`, `retracing.dfy` | the server that replays updates, any sequence of packets and alarms, the windows of a run replayed from where they started |
| `theorems.dfy`, `packet_theorems.dfy`, `update_theorems.dfy` | what every run guarantees to the server, for each packet, and about the updates themselves |
| `limits.dfy`, `ring_limits.dfy`, `fnv_examples.dfy` | where the guarantees end, with runs that get there under FNV-1 |
| `dns_table.dfy`, `dns_parser.dfy`, `dns_round_trip.dfy`, `dns_cut_off.dfy` | DNS responses: parser, encoder, round trip, also of a response that was cut off |
| `sha1_spec.dfy`, `sha1_words.dfy`, `sha1.dfy`, `bits.dfy` | FIPS 180-4 and RFC 2104; the code's word arithmetic; the streaming code |
| `hashing.dfy`, `whitelist.dfy`, `options.dfy` | FNV-1; the domain whitelist; the option type |

**The measurement state machine.** Table size (at least 4 entries) and hash function are parameters;
`Hashing.BISMARK` and `Limits.BISMARK_ROUTER` give them the program's values, and `FnvExamples` works
out the hash of three flows byte by byte. A packet arrives as the
fields `process_packet` extracts from it; packets and alarms are atomic steps, because the signals are
blocked during a packet. `Runs.World` adds a record of the run to the router's state: the packets of
each window between two updates, the state each window started in, the entries each update found, the
pairs ever inserted. The server is `ServerFlows` and `ServerRing`: replay every line, later lines
override. A DNS line of an update names a packet line and an id of the address ring.

**SHA-1.** `Sha1Spec` is written from section 6.1.2 of FIPS 180-4 (80-word schedule, shifting
variables) and section 2 of RFC 2104. The code keeps sixteen words, renames registers, rewrites the
Boolean functions and leaves unmasked high bits in its `unsigned long`s. These are natural numbers cut
to 32 or 64 bits by the flag `wide`; every statement holds for both widths, so the widths agree.

**Where code and documentation differ**, the model follows the code:

- Packet lines carry -1 for ids of at least 65529, although flow ids go up to 65535
  (`src/packet_series.c:52`). `Theorems.ResolvesExactly` has the exact condition,
  `Limits.BismarkLosesIds` a flow that is lost.
- Re-basing checks the lower bound of the 16-bit offset only (`src/flow_table.c:124`). Times survive
  exactly when no flow is too new for the new base; `Limits.TooEarlyExactly` has the runs of one packet
  and one update.
- A flow that was already sent can be expired and its slot reused in one window, if the window is
  longer than 30 minutes. `Theorems.LeadsToOwnExactly` has the exact condition, in terms of the guards
  that give slots away; `Limits.BismarkMisleads` is an example.
- A ring id that a DNS line carries can be given to another pair before the update is written, if 256
  pairs are inserted in between: `Theorems.DnsLineLeads`, with an example in `RingLimits.BismarkRingMisleads`.
- On 64-bit machines one call of `sha1_update` with 2^33 bytes or more loses carries, because there is
  one carry test (`src/sha1.c:252`). `Sha1Code.CountStep` has the exact bound, `Sha1Code.CountLosesCarry`
  an instance.
- An A record is read as four bytes whatever its data length is (`src/dns_parser.c:73`), which can reach
  behind the message: `DnsParsers.InsideExactly`.
- A packet whose source is the oldest pair of a full ring pushes it out again when its destination is
  inserted, because finding a pair does not renew it (`src/address_table.c:22-38`):
  `PacketTheorems.ReplyChangesNothing` has the exact condition, `RingLimits.ReplyInsertsAgain` an example.
- The count of packets of a new flow has four bits (`src/flow_table.h:37`), so that the bound of 63 at
  `src/flow_table.c:80` never acts and a flow of 16 packets counts as 0: `UpdateTheorems.NewFlowsCounted`.
- The counter of alarms starts again at 0 after 2^32 alarms, which moves the later updates unless
  2^32 is a multiple of the alarms per update: `UpdateTheorems.UpdatesScheduled`.
- `src/dns_parser.c:1` names RFC 1305; the format is that of RFC 1035.

## Model

| member | source | states |
|---|---|---|
| `Theorems.PacketLinesResolve` | src/main.c:204-261 | End to end, over every run: in a window whose IP packets are at most 30 minutes later than any earlier one, each packet line with an unreserved id leads, through the flow lines of all updates so far, to the packet's own 5-tuple |
| `Theorems.ResolvesExactly` | src/packet_series.c:49-63 | In such a window a packet that got a slot can be resolved if and only if its id is less than the number of table entries |
| `Theorems.PacketLineResolves` | src/main.c:360-388 | With no condition on times: a packet line leads to exactly one flow, that of the last packet of its window with the same id |
| `Theorems.LeadsToOwnExactly` | src/flow_table.c:59-114 | For windows of any length: a packet line leads to its own flow if and only if the id is below the number of entries and the last later packet of the window that takes the slot, if any, has the same flow; whether a packet takes a slot depends on the table and the packet before the call |
| `Theorems.InsertionsSentOnce` | src/flow_table.c:147-190 | Over every run: the flow lines of update n are exactly the insertions of window n, each once, in slot order; insertions not yet sent are exactly the unsent entries |
| `Theorems.UpdatesNumbered` | src/main.c:316-349 | Updates are numbered 0, 1, 2, ... and exactly the first carries the whitelist, from which the domains can be loaded again |
| `Theorems.PacketsAccounted` | src/packet_series.c:16-37 | An update has one line for each packet of its window up to 65536 and counts the others, up to the saturation of the counter |
| `Theorems.DnsLinesExactly` | src/main.c:263-265 | The DNS lines of an update are exactly the records of the DNS responses of its window, in packet order, up to 1024 of each kind, and the rest is counted |
| `Theorems.DnsLinesOfMessages` | src/main.c:263-265 | If the DNS responses of a window are encoded messages, each captured up to any byte, the DNS lines of its update are the class IN A and CNAME records that arrived whole in the answer and additional sections of those without error, in order, up to 1024 of each kind |
| `Theorems.ErrorsLeaveNoLine` | src/dns_parser.c:122-134 | A window whose DNS responses are all too short, are no responses to a standard query, or report an error leaves no DNS line and counts nothing |
| `Theorems.DnsLinesTraced` | src/main.c:257-265 | Each DNS line names the packet line of a DNS response of its window and the ring id of that response's destination |
| `Theorems.DnsLineLeads` | src/main.c:160-165 | The ring id of a DNS line leads the server to the newest pair inserted under it; with fewer than 512 insertions after the destination's, that is the response's destination address with its destination MAC address if and only if they were fewer than 256 |
| `Theorems.PacketTimesRecovered` | src/packet_series.h:22-25 | The server recovers every packet time of an update if and only if all gaps between neighbours fit in 32 bits |
| `Theorems.RingMirrored` | src/address_table.c:52-91 | After every update of every run the server's ring agrees with the router's on every live id |
| `Theorems.UpdateTimes` | src/main.c:385-388 | An update keeps base + offset equal to each flow's latest packet time if and only if no live flow is more than 32767 s ahead of the update |
| `Theorems.TimesSoundExactly` | src/flow_table.c:117-134 | Base + offset is the latest packet time of every live slot in every state of a run if and only if no update of the run is dated too early |
| `Theorems.ForwardRunsAreSound` | src/main.c:385-388 | A run whose updates are never dated before the current base keeps all times |
| `Theorems.FlowsAccounted` | src/flow_table.c:49-115 | Over every run: insertions = live + expired + re-based away, the drop counter counts the drops, and calls = matches + insertions + drops |
| `Theorems.LineOfPacket` | src/packet_series.c:50-63 | Line j of an update is packet j of its window: its size modulo 2^16, its id or -1 |
| `PacketTheorems.DroppedExactly` | src/flow_table.c:48-101 | In any run a packet gets the id 0 if and only if its whole path is held by other flows that stay, or something is live and the packet is more than 32768 s before or 32767 s after the base |
| `PacketTheorems.KnownFlowIsMatched` | src/flow_table.c:48-86 | In any run a packet within these bounds whose flow is in the table and not stale keeps its slot |
| `UpdateTheorems.EarlierPacketIsMatched` | src/main.c:385-387 | So does a packet that was captured up to 32768 s before an update and is processed after it |
| `PacketTheorems.LineOfKind` | src/main.c:217-256 | The line of a packet without a slot shows its kind: 1 to 6 for AARP, ARP, AppleTalk, IPv6, IPX and RARP, 0 for unknown protocols and dropped IP packets |
| `PacketTheorems.ClockRecovered` | src/packet_series.c:23-24 | When all gaps fit in 32 bits, dividing the server's time by 10^6 gives the seconds and microseconds of every packet line |
| `PacketTheorems.AddressesListed` | src/main.c:138-142 | After an update the server's ring has the private addresses of every IP packet of the window, the source with the packet's source MAC address and the destination with its destination MAC address; with fewer than 512 insertions behind the pair's, if and only if they are fewer than 256 |
| `PacketTheorems.ReplyChangesNothing` | src/address_table.c:16-50 | A reply between two private addresses changes nothing in the ring, unless the packet it answers found its source as the oldest pair of a full ring and inserted its destination |
| `UpdateTheorems.UpdateHeads` | src/flow_table.c:136-145 | The head of update n: the drop counter is the number of IP packets without an id so far, the element count the live entries the update found, and all flow lines so far are accounted for as live, expired, or too old at an earlier update |
| `UpdateTheorems.UpdateHeadTimes` | src/flow_table.c:136-145 | If no update is dated too early, the base in the head plus the offset of each live entry is the time of the last packet that got its slot |
| `UpdateTheorems.UpdatesScheduled` | src/main.c:465-472 | The number of updates after any number of alarms; with fewer than 2^32 alarms, update n is written at alarm (n + 1) times the alarms per update and carries its time |
| `UpdateTheorems.WindowStartsAtUpdate` | src/main.c:385-387 | Each window starts with the timestamp of the update before it as its base |
| `UpdateTheorems.NewFlowsCounted` | src/flow_table.c:78-84 | Each flow that an update finds unsent has counted its packets modulo 16 |
| `Limits.BismarkResolvesExactly` | src/constants.h:33-45 | The end-to-end result at the program's sizes: resolvable if and only if the id is below 65529 |
| `Limits.HighIdsAreLost` | src/packet_series.c:51-54 | With an update at every alarm, the first packet of any flow: the update lists the flow, and the packet line leads to it unless its slot is one of the last seven, where the line carries -1 |
| `Limits.LongWindowMisleads` | src/flow_table.c:65-72 | With an update at every alarm, for any two flows with the same first slot outside the last seven: a run with one window of more than 30 minutes in which the packet line of the first flow leads to the second |
| `Limits.BismarkLosesIds` | src/packet_series.c:51-54 | At the program's sizes and with its hash: a flow that is sent as id 65534 and whose packet line carries -1 |
| `Limits.BismarkMisleads` | src/flow_table.c:65-72 | At the program's sizes and with its hash: two flows and a run in which the packet line of the first leads to the second |
| `Limits.TooEarlyExactly` | src/main.c:385-388 | One packet and one update, with an update at every alarm: base + offset keeps the packet's time if and only if the update is dated at most 32767 s before it |
| `RingLimits.RingIdMisleads` | src/address_table.c:35-49 | With an update at every alarm: a response with any encoded message and 256 insertions behind it in one window; the DNS lines are the message's records for ring id 0, which leads the server to the last of the 256 pairs instead of the response's destination |
| `RingLimits.BismarkRingMisleads` | src/address_table.c:35-49 | The same at the program's sizes for a response with one address, naming the one DNS line |
| `RingLimits.ReplyInsertsAgain` | src/address_table.c:35-49 | A run after which a packet between two private addresses pushes its own source out of the ring, so that the reply inserts it again |
| `FnvExamples.HighSlot` | src/flow_table.c:37-63 | A flow whose first slot is one of the last seven |
| `FnvExamples.SameSlot` | src/flow_table.c:37-63 | Two flows with the same first slot |
| `Retracing.EveryRunRetraced` | src/main.c:176-275 | The flow table, the pairs and the DNS tables of every state follow from the current window and the state it started in; so do each update's entries, DNS lines and the server's ring |
| `Retracing.SlotNames` | src/flow_table.c:59-114 | At the end of a window the slot of a packet names its flow if and only if the last later packet to take the slot, if any, has the same flow |
| `Runs.EveryRun` | src/main.c:465-481 | Every sequence of packets and alarms keeps the joint invariant of router, server and history |
| `Runs.PacketKeepsCurrent` | src/main.c:176-275 | A packet keeps the invariant: table, replica, pending lines, ids of the window, packet series, address ring |
| `Runs.AlarmKeepsCurrent` | src/main.c:465-481 | An alarm keeps the invariant, whether or not it is due to write an update |
| `Runs.UpdateIsFaithful` | src/main.c:358-389 | The packet and flow lines an alarm writes describe exactly the window it ends; `Theorems.DnsLinesExactly` does this for the DNS lines |
| `Replication.ProcessMirrored` | src/flow_table.c:59-114 | A packet does not change what the server must know of sent and deleted slots |
| `Replication.WriteMirrors` | src/flow_table.c:147-190 | A server that knows all sent slots knows every used slot after replaying the flow lines |
| `Replication.AdvanceMirrored` | src/main.c:385-388 | Marking entries sent and re-basing leaves nothing unsent and nothing the server does not know |
| `Replication.ProcessPending` | src/flow_table.c:98-114 | A packet's insertion is added to the pending lines and nothing else changes them |
| `Replication.UnsentAfter` | src/flow_table.c:65-72 | No unsent entry is expired or overwritten by a packet |
| `Replication.WriteSendsPending` | src/flow_table.c:147-190 | An update lists each pending insertion once and nothing else |
| `Replication.SlotStays` | src/flow_table.c:59-97 | A packet at most 30 minutes after a flow's latest leaves the flow in its slot |
| `Replication.PacketHeld` | src/flow_table.c:59-114 | In a close window every slot referenced so far still holds its packet's flow |
| `Replication.PacketLastFlows` | src/flow_table.c:59-114 | A slot used in a window names the flow of the last packet that got it |
| `FlowTables.FlowTable.ProcessFlow` | src/flow_table.c:34-115 | The in-place code makes exactly the transition `ProcessStep` and returns slot + 7, or 0 when it drops |
| `FlowTables.FlowTable.ProbeFor` | src/flow_table.c:59-96 | The probe loop with lazy expiry equals the recursive probe |
| `FlowTables.FlowTable.AdvanceBaseTimestamp` | src/flow_table.c:117-134 | The loop re-bases every live entry, deletes those below the 16-bit range and counts them |
| `FlowTables.FlowTable.WriteUpdate` | src/flow_table.c:136-197 | Writes one line for each unsent entry, in slot order, and marks it sent |
| `FlowTables.ToInt16` | src/flow_table.h:39-41 | Storing in the 16-bit field keeps a value exactly if it fits |
| `FlowTableProperties.ProbesAre` | src/flow_table.c:61-63 | The probes of a flow are its hash and the slots 1 and 3 behind it, modulo the size, all different |
| `FlowTableProperties.ProcessKeepsInv` | src/flow_table.c:59-114 | Each live flow is in one slot only, on its probe path, with no EMPTY probe before it; the element counter counts the live slots; offsets fit 16 bits |
| `FlowTableProperties.StoppedMeansAbsent` | src/flow_table.c:92-94 | Where the probe loop stops without a hit, the flow is nowhere in the table |
| `FlowTableProperties.MissStops` | src/flow_table.c:59-96 | A miss passed only used slots up to the point where it stopped, and the slot it offers is the first free one on the path: all probes before it hold entries that stay |
| `FlowTableProperties.HitWasLive` | src/flow_table.c:73-86 | A hit held the flow before the call and was not stale |
| `FlowTableProperties.ProcessEffect` | src/flow_table.c:34-115 | The effect of a call slot by slot: an insertion takes the first free slot of its path, and the base changes only if no other entry is live |
| `FlowTableProperties.ProcessRefinesMap` | src/flow_table.c:34-115 | As a map from 5-tuple to slot and time: a call loses only stale flows on its own path, sets at most its own flow, and inserts only a flow that is absent or stale, at a slot no remaining flow has |
| `FlowTableProperties.OutcomeExactly` | src/flow_table.c:49-101 | A call is dropped if and only if something is live and the 16-bit field cannot hold the packet's time, or its whole path is held by other flows that stay; it matches if and only if its time can be held and the flow is there and not stale |
| `FlowTableProperties.InsertedExactly` | src/flow_table.c:87-114 | A call inserts at slot i if and only if its time can be held, the flow is absent or stale, and i is the first slot on its path that is not live or is stale |
| `FlowTableProperties.RenamedExactly` | src/flow_table.c:98-114 | A call changes the flow a slot names exactly when another flow takes the slot |
| `FlowTableProperties.ProcessAccounts` | src/flow_table.c:49-114 | One call balances elements, expiries, insertions and drops |
| `FlowTableProperties.AdvanceKeepsInv` | src/flow_table.c:117-134 | Re-basing to any time keeps the invariant |
| `FlowTableProperties.AdvanceRefinesMap` | src/flow_table.c:117-134 | Re-basing keeps exactly the flows seen since now - 32768 s, each in its slot, and keeps their times if and only if none is more than 32767 s ahead |
| `FlowTableProperties.ForwardIsSafe` | src/flow_table.c:119-125 | A base that does not go back keeps all times |
| `FlowTableProperties.BackwardsAdvanceForgets` | src/flow_table.c:124 | Going back can make a flow look 65536 s older |
| `FlowTableProperties.LinesAreUnsent` | src/flow_table.c:147-190 | The lines are exactly the unsent entries, with increasing ids |
| `FlowTableProperties.FirstPacket` | src/flow_table.c:98-114 | The first packet takes the first probe of its flow and sets the base |
| `PacketSeriesTables.PacketSeries.AddPacket` | src/packet_series.c:11-38 | The in-place append makes the transition `AddStep` |
| `PacketSeriesTables.PacketSeries.WriteUpdate` | src/packet_series.c:40-69 | One line for each stored packet, ids too large written as -1 |
| `PacketSeriesTables.AddRecords` | src/packet_series.c:16-37 | The buffer holds the first 65536 packets offered, in order, and the counter the rest until it saturates |
| `PacketSeriesTables.DecodedModulo` | src/packet_series.c:23-34 | Start plus prefix sums gives every time up to the stated multiple of 2^32, in every run |
| `PacketSeriesTables.SeriesRoundTrip` | src/packet_series.c:23-34 | All times come back exactly if and only if all gaps fit in 32 bits |
| `PacketSeriesTables.Discard` | src/packet_series.c:16-21 | The counter of discarded packets saturates at 2^32 - 1 |
| `AddressTables.AddressTable.Lookup` | src/address_table.c:16-50 | The in-place search and insertion make the transition `LookupStep` |
| `AddressTables.AddressTable.WriteUpdate` | src/address_table.c:52-91 | Writes the pairs added since the last update, oldest first, and where they start |
| `AddressTables.Norm` | src/address_table.c:13-14 | With C's remainder the macro is the mathematical remainder modulo 256, also for negative arguments |
| `AddressTables.FindFinds` | src/address_table.c:22-33 | The backward search finds the pair if and only if it is among the last 256 insertions |
| `AddressTables.AppendHolds` | src/address_table.c:35-49 | The live ids, oldest first, are the last 256 insertions without repetition; the newest has its number modulo 256 as id |
| `AddressTables.LookupExactly` | src/address_table.c:16-50 | A lookup of a live pair changes nothing and gives its number modulo 256, until 256 later insertions; it gives an id exactly for 10.0.0.0-10.255.255.255, 172.16.0.0-172.31.255.255 and 192.168.0.0-192.168.255.255, and -1 otherwise |
| `AddressTables.RingShape` | src/address_table.c:35-45 | last = (first + length - 1) modulo 256 whenever the ring is not empty |
| `AddressTables.IdLeads` | src/address_table.c:35-49 | An id leads to the newest pair inserted under it: to pair k while fewer than 256 pairs were inserted after it, and to another during the next 256 |
| `AddressTables.UpdateMirrors` | src/address_table.c:52-91 | Writing the lines at start + i modulo 256 makes the server agree with every live id, however many insertions there were |
| `Routers.Router.LookupAddresses` | src/main.c:132-165 | Source before destination, and the destination again for a DNS response |
| `Routers.Router.ProcessPacket` | src/main.c:176-275 | One packet is one transition `PacketStep` of all tables together |
| `Routers.Router.WriteUpdate` | src/main.c:290-400 | Writes all tables, then clears the series and the DNS table and re-bases the flow table |
| `Routers.Router.HandleAlarm` | src/main.c:465-472 | Counts the alarm and writes an update when it is due |
| `DnsTables.DnsTable.Add` | src/dns_table.c:39-48 | Appends while there is room for 1024 entries, counts otherwise |
| `DnsTables.DnsTable.AddAlias` | src/dns_table.c:50-59 | The same for CNAME entries |
| `DnsParsers.IrrelevantIsIgnored` | src/dns_parser.c:122-134 | A message that is too short for a header, is no response to a standard query, or reports an error is refused and stores nothing |
| `DnsParsers.WrittenOutIsRead` | src/dns_parser.c:36-114 | The entries of a response with an A and a CNAME record, given byte by byte |
| `DnsParsers.ParseRecord` | src/dns_parser.c:23-63 | A record that parses takes at least a byte and ends inside the message |
| `DnsParsers.AddRecord` | src/dns_parser.c:65-114 | Stores A and CNAME records of class IN and nothing else |
| `DnsParsers.ReadSection` | src/dns_parser.c:153-200 | The loop over a section equals the recursive reading; the name server section stores nothing |
| `DnsParsers.ProcessDnsPacket` | src/dns_parser.c:116-202 | The parser makes the transition `DnsStep` with its return code, on every byte string |
| `DnsRoundTrip.UnpackName` | src/dns_parser.c:27-31 | A written name of at most 255 octets is read back, whether it ends in the root or in a pointer to an earlier name |
| `DnsRoundTrip.ParseEncoded` | src/dns_parser.c:23-63 | An encoded resource record is read back field by field, and its names become targets for later pointers |
| `DnsRoundTrip.SectionRoundTrip` | src/dns_parser.c:153-200 | An encoded section is read to its end and its records are stored in order |
| `DnsRoundTrip.MessageRoundTrip` | src/dns_parser.c:116-202 | What an encoded message adds to the tables is the list of its class IN A and CNAME records in the answer and additional sections if QR = 1, OPCODE = 0 and RCODE = 0, and nothing otherwise |
| `DnsRoundTrip.DnsRoundTrips` | src/dns_parser.c:116-202 | For every encoded message, with names compressed or not: if QR = 1, OPCODE = 0 and RCODE = 0 the parser returns 0 and appends exactly the class IN A and CNAME records of the answer and additional sections, in order, up to 1024 each, counting the rest; otherwise it returns -1 and changes nothing |
| `DnsRoundTrip.NameReadIsValid` | src/dns_parser.c:27-31 | Every name that is read has labels of 1 to 63 octets and at most 255 octets |
| `DnsCutOff.RecordCut` | src/dns_parser.c:27-63 | A record of which the last bytes are missing does not parse |
| `DnsCutOff.CutOffRoundTrip` | src/dns_parser.c:116-202 | Of an encoded message that is cut off after any number of bytes, exactly the records that are there whole are stored |
| `DnsRoundTrip.PointingResponseIsRead` | src/dns_parser.c:116-202 | A response whose records point to the question's name is such a response, and all its addresses are recovered |
| `DnsParsers.MessageAppends` | src/dns_parser.c:116-202 | Processing any message appends a list that depends on the message alone, as far as there is room |
| `DnsParsers.InsideExactly` | src/dns_parser.c:65-79 | What a message adds does not depend on the memory behind it if and only if every A record that is stored has four bytes before the end of the message; all other reads stay inside |
| `Hashing.FlowBytesInjective` | src/flow_table.c:37-42 | Different flows have different bytes to hash |
| `Hashing.NearFlowsNeverCollide` | src/flow_table.c:37-42 | Flows that differ in one byte of one field have different hashes |
| `FnvExamples.FieldsInOrder` | src/flow_table.h:11-17 | The thirteen hashed bytes of a flow, in order |
| `Hashing.FnvHash32` | src/hashing.h:7-17 | The shift-and-add loop computes FNV-1 of every byte string |
| `Hashing.ShiftAddMultiplies` | src/hashing.h:13 | Shifting and adding with wrap-around multiplies by 16777619 modulo 2^32 |
| `Hashing.PrimeIsInvertible` | src/hashing.h:13 | Multiplying by 0x359C449B undoes the multiplication |
| `Hashing.StepInjective` | src/hashing.h:13-14 | A step maps different hash values to different ones |
| `Hashing.OneByteNeverCollides` | src/hashing.h:7-17 | Inputs of one length that differ in exactly one byte have different hashes |
| `Whitelists.Tokenizer.Next` | src/whitelist.c:15-21 | strtok takes tokens off the front of the text |
| `Whitelists.TokensAreLines` | src/whitelist.c:15-38 | A list is the list of tokens if and only if it holds the maximal non-empty stretches without newlines, each at its place, in order and as often as it occurs |
| `Whitelists.LoadPrintLoad` | src/whitelist.c:69-83 | Loading what was printed from a loaded text gives the same domains, for every text |
| `Whitelists.Whitelist.Load` | src/whitelist.c:11-41 | Counting and storing passes see the same tokens, and the array holds them all |
| `Whitelists.CoversBySuffix` | src/whitelist.c:60-62 | The comparison at an offset means: the domain itself or a name ending in "." and the domain |
| `Whitelists.Whitelist.Lookup` | src/whitelist.c:51-67 | Succeeds if and only if some listed domain covers the name |
| `Whitelists.Whitelist.WriteUpdate` | src/whitelist.c:69-83 | Writes one domain a line and an empty line |
| `Whitelists.CopyThroughUpdate` | src/whitelist.c:69-83 | Loading a written whitelist copies it |
| `Sha1Spec.PaddingIsMinimal` | src/sha1.c:303-304 | The zero bytes are the smallest solution of section 5.1.1 of FIPS 180-4 |
| `Sha1Words.LowF` | src/sha1.c:120-202 | The rewritten Boolean functions are Ch, Parity and Maj on the low 32 bits, whatever the high bits |
| `Sha1Words.LowS1` | src/sha1.c:100 | The shift macro rotates the low 32 bits by 1 |
| `Sha1Words.LowS5` | src/sha1.c:100 | and by 5 |
| `Sha1Words.LowS30` | src/sha1.c:100 | and by 30 |
| `Sha1Words.RIsSchedule` | src/sha1.c:102-107 | The sixteen-word ring yields word t of the 80-word schedule |
| `Sha1Words.WindowNext` | src/sha1.c:102-107 | Overwriting one place keeps the last sixteen words in the ring |
| `Sha1Words.PRefinesRound` | src/sha1.c:109-112 | Renaming registers instead of shifting them is one round of section 6.1.2 |
| `Sha1Words.GetWord` | src/sha1.c:45-51 | Four bytes are read highest first |
| `Sha1Words.PutLow` | src/sha1.c:55-61 | The low 32 bits are written highest byte first |
| `Sha1Words.HighIsLength` | src/sha1.c:296-298 | The high word is bits 32 to 63 of eight times the length |
| `Sha1Words.BigEndian` | src/sha1.c:300-301 | The two words are the 64-bit length field |
| `Sha1Code.P` | src/sha1.c:109-112 | A round on five rotating registers with the ring of words |
| `Sha1Code.RunRounds` | src/sha1.c:81-226 | Eighty rounds refine section 6.1.2 for every state and block, on both widths |
| `Sha1Code.CountStep` | src/sha1.c:249-253 | The two counters stay exact if and only if low counter and length add up to less than 2^33 |
| `Sha1Code.CountLosesCarry` | src/sha1.c:249-253 | An update of 2^33 bytes on a 64-bit machine loses a carry |
| `Sha1Code.PaddingFed` | src/sha1.c:292-307 | The bytes sha1_finish feeds are the padding of section 5.1.1 for every length |
| `Sha1Code.Sha1Context.Starts` | src/sha1.c:67-77 | The empty message |
| `Sha1Code.Sha1Context.Process` | src/sha1.c:79-233 | The state is compressed with the block as section 6.1.2 says, modulo 2^32 |
| `Sha1Code.Sha1Context.Update` | src/sha1.c:238-277 | Appends to the message for every length: state = fold over the whole blocks, buffer = the rest |
| `Sha1Code.Sha1Context.Finish` | src/sha1.c:290-314 | The digest of the message |
| `Sha1Code.Sha1` | src/sha1.c:319-328 | The digest of one input |
| `Sha1Code.Sha1Chunks` | src/sha1.c:238-314 | Any message, cut in any way into updates below 2^32 bytes, empty ones included, on either width, gives the SHA-1 digest |
| `Sha1Code.Sha1Context.MixPad` | src/sha1.c:379-386 | The pads are the key, filled up with zeros, xor the pad byte |
| `Sha1Code.Sha1Context.HmacStarts` | src/sha1.c:367-392 | The inner pad of a key of any length is hashed, long keys hashed first |
| `Sha1Code.Sha1Context.HmacUpdate` | src/sha1.c:397-400 | Appends to the text |
| `Sha1Code.Sha1Context.HmacFinish` | src/sha1.c:405-416 | HMAC-SHA-1 of RFC 2104 for the key and everything hashed since; the pads stay |
| `Sha1Code.Sha1Context.HmacReset` | src/sha1.c:421-425 | After a finish the context is as sha1_hmac_starts left it |
| `Sha1Code.Hmac` | src/sha1.c:430-441 | The HMAC of one input, exact while the byte counters are |
| `Sha1Code.HmacTwice` | src/sha1.c:367-441 | For every key and any chunking of two texts, with a reset between them, both results are HMAC-SHA-1 |

## Left out

- Packet capture, the header casts of get_flow_entry_for_packet, signal delivery, gzip, file renaming and exit paths: packets enter as extracted fields, an update is a record, and writes succeed.
- SIGINT and SIGTERM (one last update and exit), and a SIGINT that interrupts the SIGALRM handler.
- Anonymization of addresses and domain names (`src/anonymization.c`): lines carry the plain values. The two unanonymized flags of a flow entry, which nothing sets.
- The version, build, bismark and start-time lines of an update and the pcap statistics.
- FlowTables.FlowTable.WriteUpdate: a line carries the plain addresses instead of their digests and the two anonymization flags.
- AddressTables.AddressTable.WriteUpdate: a line carries the plain pair instead of its digests.
- Routers.Router.WriteUpdate: leaves out the header lines, the pcap and drop statistics and the anonymization section.
- Routers.Router.HandleAlarm: leaves out the flow log, the frequent update and the exit after upload failures.
- The log of thresholded flows; the counts it is written from are the subject of `UpdateTheorems.NewFlowsCounted`.
- Drop statistics, device throughput, upload failures, HTTP, and the Bloom filter.
- DNS whitelist lookups while the DNS table is written: an update carries the table's entries.
- Double-precision arithmetic: the probe index and the times are exact integers, so a hash within 3 of 2^32 is not followed through the conversion from double.
- FlowTables.FlowTable.ProcessFlow: the counters of expired and dropped flows do not wrap at 2^31; the element count and the base are unbounded integers.
- Theorems.UpdatesNumbered: the sequence number does not wrap at 2^31.
- DnsParsers.ProcessDnsPacket: dn_expand is a library function and is written out here with compression pointers, on lists of labels instead of escaped text, so the limit of 1025 characters is not modelled.
- DnsRoundTrip.DnsRoundTrips: pointers go to names of questions, to names of records and to CNAME data, not into the data of other record types, which is opaque here.
- Hashing.OneByteNeverCollides: is about FNV-1 itself; `Hashing.BISMARK` feeds it the fields of a flow in little-endian memory order.
- Whitelists.Whitelist.Load: strings have no terminating zero byte, and running out of memory is not modelled.
- Sha1Code.Sha1Context.Finish: says nothing about the digest when the counters are not exact, which takes 2^33 bytes in one update.
- Sha1Code.RunRounds: the eighty unrolled rounds are sixteen passes of five, after which the registers have their names back.
- Scrubbing of key material with memset, sha1_file and the self-test vectors.
