# Jetway, modelled and proved in Dafny

Jetway is an airline messaging and operations system. This project models eight of
its parts and proves what they are for.

**EDIFACT** (`Edifact*.dfy`, `Decimal.dfy`). The ISO 9735 syntax layer: a tolerant
byte scanner, a segment printer, the inference of service characters and syntax
version from the very bytes they split, the envelope assembler, and the CONTRL report
on top. The scanner is a class that is fed a byte at a time and a fold over the bytes
that specifies it; the printer is specified by the normal form of a segment, its empty
tails truncated as section 7 of ISO 9735:1988 asks. The main result is that decoding
is a fixed point: whatever is accepted, parsing what encoding wrote gives the same
interchange, through every UNA, inference, rescan and back-out path. `EdifactTokens`
shows that reading any text is splitting it, `EdifactPositions` says by position alone
what any flat list is grouped into, and `EdifactGroups` what validation owes it.

**Relay** (`Relay*.dfy`). Switches joined by trunks forward one message to the
addresses on its line. A run is any order of arrivals of the copies in flight over an
acyclic network. Every copy carries the walk it took; uniqueness of walks turns the
rule "never back down the trunk it came over" into exactly-once delivery. `RelayRouting`
states the routes by the parts of an address and accounts for sends that fail.

**Crew legality** (`Crew*.dfy`). Look-back limits on flight and duty time, rest and
free time, over whole ticks. The total is evaluated at leg arrivals and release only;
sliding the window a tick at a time shows that no other instant is worse. `CrewLawful`
says what a lawful duty is without the check, and when the check finds it.

**Departure control** (`DcsCabin`, `DcsSeating`, `DcsCabinOrder`, `DcsFlight`, `DcsRuns`,
`DcsOperations`, `DcsClosing`, `DcsDeparture`, `DcsCounter`, `DcsDoor`, `DcsLists`,
`DcsStation`). A flight under control
from its name list to its closure. `DcsFlight` says what every operation does to the
flight as a value, errors and half-way outcomes included; `DcsStation` is the class
whose methods do it step by step; the other modules prove what every run keeps, that
closing check-in is fair and that closing the flight is final. `DcsCounter`, `DcsDoor`
and `DcsLists` say what the operations mean at the counter, at the door and for a name
list, in the passengers' own fields.

**Messages in parts and load planning** (`DcsPaging`, `DcsParts`, `DcsLoad`, `DcsTrim`).
Lists split under their headings, no sooner than they must, and read back; cargo, mail
and bags put into holds and containers, and in what order.

**Redelivery** (`EgressRetry.dfy`, `EgressRuns.dfy`). The retry queue as a state machine
in which sends interleave with a drain in progress; where a message stands is told by
the tries made so far.

**Settlement** (`Hot*.dfy`). The fixed-width hand-off file of a billing period:
over-punched amounts, counted and numbered records, totals by code, currency and cycle.
`HotFile` lays the records out and says what reading them does; `HotProgram` holds the
loops that compute, write and parse; the others prove what computing derives, which
records a transaction is written as and in which columns, what any written file is read
as, exactly when that is the whole file, that its totals foot, that writing it again
changes nothing, and what any other file is read as or refused for.

Each imperative part is a method or class proved against a specification function, and
the laws are lemmas about those functions. `Wrappers`, `Sequences`, `Text`
and `Arithmetic` hold what several modules share.

## Where the code falls short of its word

These came out of the proofs; each has its exact condition or a concrete case.

- A repeated element written at syntax version 5 and up is not read back, because
  inference stops at version 4 (`EdifactBuilt.BuiltRoundTrip`,
  `EdifactBuilt.Version5LosesRepetition`).
- A message still open when a group begins is filed in the group it ends in. Every group
  holds exactly what starts in it if and only if no group begins inside a message
  (`EdifactPositions.GroupsHoldWhatStartsInThem`, `EdifactPositions.MessageOpenAtGroup`).
- A total over calendar days looks only at days a leg arrives on, so a leg over midnight
  can break the limit on the day before; the comment at pkg/crew/cumulative.go:128-130
  says the worst point is always found. It is if and only if the total covers the eve of
  every arrival (`CrewLegality.TotalIsTheMaximumExactly`, `CrewLegality.OvernightIsMissed`).
- A seat asked for as 012A is a second key for 12A (`DcsDeparture.LeadingZeroSeatsTwo`).
- pkg/dcs/dcs.go:220-222 says nothing changes after a flight closes; a bag report still
  marks bags, and can mark one of a passenger who did not fly (`DcsDeparture.LateReport`).
- A memo's related document goes over the columns its own document was written in; a
  shorter one keeps the tail of the other (`HotColumns.RelatedSurvivesExactly`).
- The remittance goes on the last cash payment but the first is written last, so a file
  with two cash payments to a document totals otherwise once it is read and written again
  (`HotRewrite.TotalsSurviveRewritingExactly`).
- A transaction of a thousand records or more is written with a count the reader refuses
  (`HotRoundTrip.TransactionAppliedExactly`).
- Kilos beyond what a compartment's free positions carry are in the hold and in no
  container, and nothing says so (`DcsLoad.ContainersTakeItExactly`).
- A list whose path is the one before it cut short is read under the longer one
  (`DcsPaging.OnePartReadsExactly`).
- With a limit of one attempt a message is sent twice (`EgressRetry.LimitOfOneIsTwo`),
  and the first wait is never capped (`EgressRetry.BackoffIsCapped`).

## Model

| member | source | states |
|---|---|---|
| Decimal.AtoiOfItoa | pkg/edifact/encode.go:204-211 | Every count the envelope prints is read back as the same number. |
| EdifactScan.Reader.Feed | pkg/edifact/scan.go:154-241 | One byte of the scanner: the fields after it are the byte automaton's next state, segment filing, stray releases, line breaks and the segment cap included. |
| EdifactScan.Scan | pkg/edifact/scan.go:71-273 | Scanning any text returns what the byte automaton defines: leading blanks, UNA, service characters, segments, remarks, an unterminated tail, or one of the two refusals. |
| EdifactScan.RunConcat | pkg/edifact/scan.go:154-241 | Reading two texts one after the other is reading the second from the state the first leaves. |
| EdifactEncode.Escape | pkg/edifact/encode.go:29-49 | The output is the value with a release character before every service character and nothing else changed. |
| EdifactEncode.TrimRendered | pkg/edifact/encode.go:87-89 | Dropping the empty rendered tail is dropping the empty elements: the bytes and the data agree on what is empty. |
| EdifactEncode.EncodeTo | pkg/edifact/encode.go:51-95 | Writing a segment appends the wire form of its normal form: empty tails dropped at all three levels, repetitions joined as the syntax allows. |
| EdifactRoundTrip.RunEscaped | pkg/edifact/encode.go:29-49 | The scanner takes an escaped value back into its buffer byte for byte, line breaks excepted, from any state. |
| EdifactRoundTrip.RunSegments | pkg/edifact/scan.go:154-241 | Scanning the bytes of a list of segments, with any line ending, files exactly what a reader with those service characters sees of each. |
| EdifactRoundTrip.ScanOfWire | pkg/edifact/encode.go:51-95 | For every usable syntax, list of segments with valid tags and line ending, Scan of what was written returns the segments with empty tails trimmed and line breaks gone, with no remark when nothing was dropped. |
| EdifactRoundTrip.RoundTripExactly | pkg/edifact/scan.go:139-241 | Write then scan gives back exactly the trimmed segments if and only if no written value holds a CR or LF. |
| EdifactNormal.NormKeepsValues | pkg/edifact/encode.go:51-95 | Trimming changes the value at no position of a segment. |
| EdifactNormal.NormIsCanonical | pkg/edifact/encode.go:51-95 | Two segments trim to the same form if and only if they have the same tag and the same value at every position. |
| EdifactNormal.WireOfNorm | pkg/edifact/encode.go:51-95 | The trimmed segments are written as the identical bytes. |
| EdifactInterchange.ScanIsSound | pkg/edifact/scan.go:71-273 | Whatever is scanned, every segment has a usable tag, no value holds a line break and nothing repeats unless repetition is on. |
| EdifactInterchange.DeclaredThroughVersion3 | pkg/edifact/interchange.go:315-341 | A header that declares version 4 still declares it when its version 4 bytes are read with version 3 rules. |
| EdifactInterchange.DecodedIsSettled | pkg/edifact/interchange.go:218-303 | Every accepted interchange carries the version its own header declares and service characters a reader of its encoding would infer, through the UNA, inference, rescan and back-out paths. |
| EdifactInterchange.DecodingIsAFixedPoint | pkg/edifact/interchange.go:218-341 | For every text Parse accepts and every way of encoding the result, parsing again gives the same service characters and version and the same value at every position, and encoding that gives identical bytes. |
| EdifactInterchange.SecondPassIsExact | pkg/edifact/encode.go:110-161 | From the second decoding on, decoding what was encoded returns the interchange itself. |
| EdifactEnvelope.AssembleLosesNothing | pkg/edifact/interchange.go:352-440 | On any flat list the messages hold every header and every body segment met inside a message, in order, and each other body segment raises exactly one outside-message diagnostic. |
| EdifactEnvelope.Interchange.File | pkg/edifact/interchange.go:370-429 | Filing one segment turns the current message, group and lists into the assembly's next state, with that tag's diagnostics. |
| EdifactEnvelope.Interchange.GroupSegments | pkg/edifact/interchange.go:353-440 | The loop over the flat list ends in the assembly of the whole list, open messages and groups closed with their remarks. |
| EdifactEnvelope.Interchange.ValidateEnvelope | pkg/edifact/interchange.go:445-507 | The diagnostics added are exactly those of missing UNB or UNZ and of every reference and count that disagrees. |
| EdifactEnvelope.Interchange.Finalize | pkg/edifact/encode.go:203-236 | Every message gets a UNT with its segment count and reference, every group a UNE, the interchange a UNZ, and the flat list is rebuilt. |
| EdifactEnvelope.Interchange.FlattenEnvelope | pkg/edifact/encode.go:164-195 | The flat list is header, groups or messages with their service segments, trailer, in order. |
| EdifactEnvelope.Interchange.Encode | pkg/edifact/encode.go:110-161 | The bytes are the UNA, when asked for, not implied, or received, then each segment's wire form and line ending. |
| EdifactEnvelope.Parse | pkg/edifact/interchange.go:219-303 | Scan, version inference, rescan and back-out, assembly and validation give exactly the decoded content, envelope and diagnostics of the specification. |
| EdifactBuilt.AssembleFlat | pkg/edifact/encode.go:164-195 | Assembling a flattened complete envelope gives back its messages and trailer with no diagnostic. |
| EdifactBuilt.BuiltRoundTrip | pkg/edifact/encode.go:197-308 | An interchange built with NewInterchange and AddMessage, finalized and encoded any way, parses with no Error; its messages come back trimmed if and only if the reader can infer the syntax or no body element repeats. |
| EdifactBuilt.Version5LosesRepetition | pkg/edifact/encode.go:269-299 | A version 5 interchange with one repeated element does not come back: the failing family is inhabited. |
| EdifactControl.BuildBody | pkg/edifact/contrl.go:357-366 | The segments built are the report flattened: UCI, then per message UCM, UCS and UCD in order. |
| EdifactControl.ParseControl | pkg/edifact/contrl.go:415-472 | Reading a message returns the left-to-right fold of its segments onto the last message and segment report, or the missing-UCI error. |
| EdifactControl.FoldOfFlat | pkg/edifact/contrl.go:436-471 | Folding a flattened report rebuilds the tree: each UCD returns to its UCS and each UCS to its UCM. |
| EdifactControl.ReturnedReportExactly | pkg/edifact/contrl.go:395-406 | A report comes back as itself if and only if no element reference has a component without a position, a negative component, or an error code outside a UCD. |
| EdifactControl.ControlRoundTrip | pkg/edifact/contrl.go:330-472 | Built, encoded any way, parsed and folded back, a report is the original if and only if CONTRL can carry it; the interchange always parses without Error into one message. |
| RelayGateway.Gateway.AddPeer | pkg/gateway/gateway.go:267-286 | Registering a link updates the carrier, address, indicator and AFTN routes exactly. |
| RelayGateway.PeerServesItsAddresses | pkg/gateway/gateway.go:299-319 | After registering, a peer serves each of its own addresses and every other explicit address is routed as before. |
| RelayGateway.Gateway.Fanout | pkg/gateway/gateway.go:354-398 | The deliveries and sends are the fold over the address line: one copy per link to another switch, one per subscriber address, none for this node. |
| RelayGateway.Gateway.Relay | pkg/gateway/gateway.go:847-943 | What is forwarded, whether the message is also applied here and its status are as judged address by address. |
| RelayWalks.UniqueWalk | pkg/gateway/gateway.go:832-846 | In an acyclic network of trunks two walks that never turn back and join the same switches are the same walk. |
| RelayWalks.TrunkDivides | pkg/gateway/gateway.go:868-876 | From either end of a trunk, a home lies beyond it from exactly one of them. |
| RelayNetwork.FanLinks | pkg/gateway/gateway.go:365-396 | A fan-out sends exactly one copy on each link some forwarded address leaves on. |
| RelayNetwork.JudgeAway | pkg/gateway/gateway.go:852-891 | Away from its home an address is forwarded unless it lies behind the trunk the message came over. |
| RelayNetwork.CopiesRight | pkg/gateway/gateway.go:847-943 | A switch sends a copy to a neighbour if and only if some wanted address lies beyond it and the message did not come from there. |
| RelayNetwork.AddressAcross | pkg/gateway/gateway.go:847-943 | One switch's work conserves each wanted address: brought by the arriving copy, it leaves on exactly one copy or is served here; not brought, nothing happens. |
| RelayNetwork.RunIsRight | pkg/gateway/gateway.go:847-943 | In every state of every run each wanted address is on its way in exactly one copy in flight or already served, and nothing else was delivered. |
| RelayNetwork.RelayTerminates | pkg/gateway/gateway.go:847-943 | No run is longer than the network has switches. |
| RelayNetwork.RelayProgresses | pkg/gateway/gateway.go:847-943 | While a copy is in flight it can arrive and be relayed. |
| RelayNetwork.TrunksCrossedOnce | pkg/gateway/gateway.go:354-398 | No trunk is crossed twice, in either direction, in any run. |
| RelayNetwork.EveryoneServedOnce | pkg/gateway/gateway.go:847-943 | When nothing is in flight every wanted address was served at its home as often as the line lists it, every switch with a wanted address of its own has applied the message exactly once, no other switch has, and nobody else received anything. |
| RelayNetwork.OriginNeverReached | pkg/gateway/gateway.go:858-866 | At every moment whatever was delivered is on the line, is not the origin, and was delivered at its home. |
| CrewTime.OverlapCountsTicks | pkg/crew/cumulative.go:198-209 | Overlap is the number of ticks the two intervals share. |
| CrewTime.WorstAtAnEnd | pkg/crew/cumulative.go:126-130 | For any look-back span, no instant from the start of a new block on has more time in its window than the end of some new block. |
| CrewTime.WorstOnAnEndOrItsEve | pkg/crew/cumulative.go:34-41 | For calendar-day look-backs no day from the start of a new block on has more time in its window than both the day some new block ends on and the day before that, however long the blocks are. |
| CrewRecord.Record.Add | pkg/crew/cumulative.go:248-253 | Binary search files a period behind those reporting no later and ahead of those reporting later; an ordered record stays ordered. |
| CrewRecord.FilingAddsItsTime | pkg/crew/cumulative.go:248-253 | Wherever it is filed a period adds exactly its own flight and duty time to every window. |
| CrewRecord.Record.FlightTime | pkg/crew/cumulative.go:283-291 | The sum returned is the block time of all legs inside the window. |
| CrewRecord.LongestFree | pkg/crew/cumulative.go:324-347 | The sweep returns the longest stretch inside the window that no period meets, as an exhaustive search over all lengths finds it, for unsorted and overlapping periods. |
| CrewRecord.LastReleasedIsLast | pkg/crew/cumulative.go:305-315 | Some period was released between two times if and only if the last duty found was. |
| CrewRecord.TrimKeepsTimes | pkg/crew/cumulative.go:272-302 | Trimming changes flight and duty time in no window from the cutoff on. |
| CrewRecord.TrimKeepsFreeTime | pkg/crew/cumulative.go:318-347 | Nor the longest free time. |
| CrewLegality.AddDuty | pkg/crew/cumulative.go:257-268 | A duty flown is filed with its release after the latest arrival; one without legs is not filed. |
| CrewLegality.Check | pkg/crew/crew.go:152-180 | Block time over its limit, duty over the extended limit, or legal, extended when over the plain limit. |
| CrewLegality.Totals | pkg/crew/cumulative.go:131-166 | The totals are those of the specification: the largest over leg arrivals, or the one at release. |
| CrewLegality.TotalIsTheMaximumExactly | pkg/crew/cumulative.go:126-166 | Each total is the true maximum of its measure over every instant the duty is underway if and only if it covers the last instant before the midnight before each leg ends (before release for duty time); for spans of hours there is none and it always is. |
| CrewLegality.OvernightIsMissed | pkg/crew/cumulative.go:34-41 | With a leg over midnight a calendar-day total can be under the limit while the departure day is over it. |
| CrewLegality.EveIsDeparture | pkg/crew/cumulative.go:34-41 | For a leg over one midnight at most that instant is as bad as its departure. |
| CrewLegality.Admits | pkg/crew/cumulative.go:93-124 | The verdict, reason and totals are those of the specification, with or without a history. |
| CrewLawful.LegalMeans | pkg/crew/cumulative.go:93-124 | A duty keeps its flight time limit, its extended duty period for every leg, the rest, the free stretch and every cumulative limit at every instant underway, each counted in ticks, if and only if it is found legal and keeps its calendar limits on those eves; with limits over hours alone, if and only if it is found legal. |
| CrewLegality.TrimKeepsTheVerdict | pkg/crew/cumulative.go:270-347 | Trimming before every look-back leaves the whole verdict as it was. |
| DcsSeating.SeatNameReads | pkg/dcs/seatmap.go:148-177 | A printed seat name is keyed as written and read back as its row and letter. |
| DcsSeating.SeatsDistinct | pkg/dcs/seatmap.go:128-148 | In a well-formed cabin no seat is listed twice. |
| DcsSeating.SeatIsFound | pkg/dcs/seatmap.go:151-165 | Every listed seat is found in the compartment it is listed in. |
| DcsCabin.Cabin.Free | pkg/dcs/seatmap.go:128-146 | The count returned is that of the unoccupied seats of the compartment, or of the cabin. |
| DcsCabin.Cabin.Assign | pkg/dcs/seatmap.go:182-242 | The seats are those of the first block with room, else the first free in cabin order, else none. |
| DcsSeating.AssignIsRight | pkg/dcs/seatmap.go:179-242 | n distinct free seats of the compartment, all in one aisle block whenever some block has n free; none if and only if fewer than n are free. |
| DcsCabin.Cabin.Take | pkg/dcs/seatmap.go:245-254 | An unknown seat or one held by another is refused; otherwise the seat becomes the passenger's. |
| DcsOperations.AcceptIsAllOrNothing | pkg/dcs/checkin.go:43-196 | A party is accepted whole, with consecutive sequence numbers and nobody else touched, or nothing changes. |
| DcsOperations.SeatsDecideAcceptance | pkg/dcs/checkin.go:123-196 | With no seat named, a resolved party is accepted if and only if each compartment has a free seat for each of its members there. |
| DcsOperations.GoShowIsNeverStranded | pkg/dcs/checkin.go:218-300 | A go-show never meets the no-seat error, whose answer would be read from an acceptance that is not there; with no seat named it is accepted or waits. |
| DcsRuns.PartySeatsTakeable | pkg/dcs/checkin.go:123-170 | The seats found for a party over all its compartments are distinct, free and each in its member's compartment. |
| DcsRuns.TakeAllSeats | pkg/dcs/checkin.go:173-190 | Taking distinct free seats cannot fail half way. |
| DcsRuns.OffloadKeeps | pkg/dcs/checkin.go:364-373 | Freeing a seat leaves the occupancy map exact. |
| DcsOperations.NameListKeeps | pkg/dcs/dcs.go:673-844 | No name list, PNL or ADL, breaks the invariant. |
| DcsClosing.CheckInClosesFairly | pkg/dcs/checkin.go:396-424 | Nobody waits while a seat of their compartment is free; whoever was cleared while another of the compartment was left behind is staff only if that one is too, and otherwise has the lower ID; only standbys changed. |
| DcsDeparture.ReconciliationBalances | pkg/dcs/checkin.go:505-523 | Loaded bags are boarded passengers' plus unaccompanied. |
| DcsDeparture.CloseSettlesTheFlight | pkg/dcs/checkin.go:541-614 | Nobody stays listed or accepted, every bag still loaded is a boarded passenger's, the reconciliation balances and counts them, and the load's bags and kilos are those Counts gives. |
| DcsDeparture.EveryRunIsSound | pkg/dcs/dcs.go:673-844 | After any run of operations the occupancy map is exactly seat to ID of those accepted or boarded, IDs rise and sequence numbers differ. |
| DcsDeparture.NeverTwoToASeat | pkg/dcs/checkin.go:123-373 | In any run no two passengers flying hold the same designator, ID or sequence number. |
| DcsDeparture.NothingEverPanics | pkg/dcs/checkin.go:259-285 | No operation of any run stops on a missing result. |
| DcsDeparture.ClosedForGood | pkg/dcs/checkin.go:541-614 | Once closed, no operation changes a status, a seat, the reconciliation or the load; a bag report alone gets through and reaches only bags. |
| DcsDeparture.LateReport | pkg/dcs/dcs.go:1106-1116 | After closing, a reported tag leaves only boarded passengers' bags loaded if and only if its first bag is a boarded passenger's or nobody's. |
| DcsDeparture.NamedSeatIsAPlace | pkg/dcs/checkin.go:138-155 | Accepting into a named seat keeps row and letter unique if and only if no occupied designator reads as the ones asked for. |
| DcsDeparture.LeadingZeroSeatsTwo | pkg/dcs/seatmap.go:151-177 | 12A and 012A are two keys for one seat, and the second is taken while the first is held. |
| DcsDeparture.NeverTwoInAPlace | pkg/dcs/checkin.go:123-300 | In any run whose requests name seats as printed, no two passengers flying sit in one row and letter. |
| DcsDeparture.ReindexIsExact | pkg/dcs/seatmap.go:69-76 | Rebuilding occupancy from the passengers changes nothing. |
| DcsStation.Flight.ResolveRequest | pkg/dcs/checkin.go:76-119 | The passengers found, or the error, are those the request names. |
| DcsStation.Flight.AcceptParty | pkg/dcs/checkin.go:123-196 | Seating by compartment, taking seats one by one and tagging bags give the specified flight and outcome. |
| DcsStation.Flight.Accept | pkg/dcs/checkin.go:43-73 | Stage checks, resolution and acceptance give the specified flight and outcome. |
| DcsStation.Flight.AcceptGoShow | pkg/dcs/checkin.go:218-285 | A newcomer is added, seated or left waiting, or removed again, as specified. |
| DcsStation.Flight.CloseStandby | pkg/dcs/checkin.go:396-424 | The stable sort and the loop over it clear the standby list as specified. |
| DcsStation.Flight.Reconcile | pkg/dcs/checkin.go:505-523 | The loop over passengers and bags gives the specified reconciliation. |
| DcsStation.Flight.CloseFlight | pkg/dcs/checkin.go:541-614 | No-shows, offloads, reconciliation, pulled bags and the load's bags are as specified, the refusal for unreconciled bags included. |
| DcsStation.Flight.CancelFlight | pkg/dcs/checkin.go:631-667 | Everyone flying comes off, nobody becomes a no-show, the flight closes. |
| DcsStation.Flight.ApplyNameList | pkg/dcs/dcs.go:673-844 | A PNL part is refused, ignored or added; an ADL deletes, adds and changes in that order. |
| DcsStation.Flight.ReportBags | pkg/dcs/dcs.go:1070-1116 | Each tag marks the first bag that carries it; the tags nobody checked are returned, as often as they were reported. |
| DcsPaging.Paginate | pkg/dcs/messages.go:132-176 | The parts are those of the specification, line for line. |
| DcsPaging.PartsAreNumbered | pkg/dcs/messages.go:141-155 | Parts are numbered consecutively from 1, each says so in words, and only the last ends with the kind's own END line. |
| DcsPaging.PartsFitExactly | pkg/dcs/messages.go:118-176 | Every part is within 50 lines if and only if every heading path has at most 46 headings, or 47 over no lines. |
| DcsPaging.ReadingGivesTheListBack | pkg/dcs/messages.go:123-176 | Read in order while tracking headings, the parts give back every body line once, in order, under its own full path, for paths of any lengths none of which is the one before it cut short. |
| DcsPaging.SalesListsReadBack | pkg/dcs/messages.go:335-392 | By the reader's own rule (a dash opens a destination, a category stands below it) a sales list with a category to every destination always reads back. |
| DcsPaging.OnePartReadsExactly | pkg/dcs/messages.go:156-176 | In a list that needs one part, reading gives it back if and only if every block with lines is heard under its own path; where all have lines, if and only if no path is the one before it cut short. |
| DcsLoad.PouringIsRight | pkg/dcs/load.go:384-402 | Filling holds keeps every limit, loses no kilo and leaves over exactly what exceeds the room. |
| DcsLoad.PlanIsRight | pkg/dcs/load.go:339-424 | No hold is loaded past its limit, the holds carry cargo, mail and bags less exactly the kilos reported, and no bag kilo is left over if and only if some share on the grid fits. |
| DcsLoad.PlannedContainersHoldEveryBag | pkg/dcs/load.go:406-424 | Whenever a container is built the containers' bag counts add up to the bags. |
| DcsLoad.PlanLoad | pkg/dcs/load.go:293-424 | Dead load aft first, the share search, both fills and the apportioning give the specified holds, containers and leftovers. |
| DcsLoad.ContainersTakeItExactly | pkg/dcs/load.go:525-546 | The containers of a compartment take exactly the kilos it was given if and only if these are no more than its free positions carry; the rest stays in the hold total without a word. |
| DcsLoad.Load.BuildULDs | pkg/dcs/load.go:525-546 | Free positions are filled in order, each to its capacity. |
| EgressRetry.Router.Backoff | pkg/egress/retry.go:171-189 | The doubling loop returns the specified wait. |
| EgressRetry.BackoffIsCapped | pkg/egress/retry.go:171-189 | The wait after k failures is the initial wait times two to the k-1, capped, if and only if the initial wait is within the cap or k is above one. |
| EgressRetry.Router.SendMessage | pkg/egress/retry.go:152-169 | A failed first send is queued with one try and its first wait; with no route nothing is queued. |
| EgressRetry.Router.Drain | pkg/egress/retry.go:235-283 | An undisturbed drain takes what is due, in band order, and handles each attempt once as specified. |
| EgressRetry.DrainGoesOutInBandOrder | pkg/egress/retry.go:235-253 | A drain takes exactly the attempts whose wait is over, most urgent band first, in queue order within a band. |
| EgressRetry.EveryRunAccounts | pkg/egress/retry.go:200-293 | In every state of every interleaving of sends and drains each failed message stands in one place and every waiting attempt knows how often it was tried. |
| EgressRetry.ExactlyOnePlace | pkg/egress/retry.go:200-293 | Each message whose first send failed is in exactly one of queued, in hand, sent and given up, and is tried at most its limit when the limit is at least two, and at most twice when it is one. |
| EgressRetry.LimitOfOneIsTwo | pkg/egress/retry.go:152-169 | With a limit of one a failing message is sent twice. |
| HotRecord.AmountSurvivesExactly | pkg/bsp/hot.go:835-884 | An over-punched amount reads back, sign and all, if and only if it has no more digits than columns. |
| HotRecord.AmountReadsBack | pkg/bsp/hot.go:835-884 | Of any amount the sign survives and the digits that fit. |
| HotRecord.NumberCut | pkg/bsp/hot.go:815-830 | A number too wide for its columns reads as another one, never as none. |
| HotRecord.TextSurvivesExactly | pkg/bsp/hot.go:811-830 | A text survives its columns if and only if it is printable, has nothing to trim and fits. |
| HotRecord.NumberSurvivesExactly | pkg/bsp/hot.go:811-830 | A number survives, sign included, if and only if its columns have room for it. |
| HotColumns.RelatedSurvivesExactly | pkg/bsp/hot.go:497-514 | The related document of a memo reads back if and only if it fits and is at least as long as the document it is written over. |
| HotColumns.FieldsSurviveExactly | pkg/bsp/hot.go:429-591 | What a reader makes of a transaction is the transaction, taxes in order, total, commission and payments, if and only if every field fits its columns. |
| HotColumns.Bks30Reads | pkg/bsp/hot.go:456-484 | One amounts record gives back what its columns keep of fare, total, currency and up to three taxes in order. |
| HotRoundTrip.TransactionAppliedExactly | pkg/bsp/hot.go:429-591 | Reading any transaction's records files it with what its columns keep if its records can be counted in three digits; otherwise whatever would file it fails on the count. |
| HotRoundTrip.WrittenFileReads | pkg/bsp/hot.go:597-765 | The records of any file that can be counted parse to what their columns keep, and nothing is left over. |
| HotExact.AcceptedExactly | pkg/bsp/hot.go:597-765 | A written file is accepted if and only if each transaction has fewer than a thousand records and the file fewer than a hundred million. |
| HotExact.ReadsBackExactly | pkg/bsp/hot.go:597-765 | The records parse to the file itself, every transaction computed, if and only if every field fits its columns and everything can be counted. |
| HotText.FilePrintable | pkg/bsp/hot.go:811-830 | Whatever the fields hold, no written record holds a character that could end a line. |
| HotText.TextReadsBackExactly | pkg/bsp/hot.go:274-765 | The same of the text, over all files: accepted exactly when it can be counted, and the whole file again, every fare, tax in order, total, commission and payment, exactly when every field fits as well. |
| HotTotals.TransactionTotals | pkg/bsp/hot.go:235-261 | What a transaction adds to the totals is what a reader of it would sum, its one remittance included. |
| HotTotals.OfficeTotalsFoot | pkg/bsp/hot.go:769-783 | The sums read off an office's BOT94 records add up to what a reader sums over the transactions it read. |
| HotTotals.WhatIsReadFoots | pkg/bsp/hot.go:597-783 | Parsing the written text, each office read sums up to the sums read off its BOT94 records. |
| HotTotals.SubtotalsFoot | pkg/bsp/hot.go:354-368 | The sums read off the BOT93 records of a currency add up to those on its BOT94 record. |
| HotTotals.CycleTotalsFoot | pkg/bsp/hot.go:383-413 | The cycle and file totals of a currency are the sums of the BOT94 records in it over all offices. |
| HotRewrite.TotalsSurviveRewritingExactly | pkg/bsp/hot.go:246-260 | A transaction read and written again counts as before if and only if its first and last cash payment are of one amount. |
| HotRewrite.RewritingIsStable | pkg/bsp/hot.go:274-765 | With every field in its columns and cash paid once at most, writing what was read gives the same text, character for character. |
| HotProgram.Compute | pkg/bsp/hot.go:235-261 | The loops over taxes and payments give the computed transaction and its totals. |
| HotProgram.LayOut | pkg/bsp/hot.go:429-591 | The loops lay a transaction out in order, the cash record last, the header's count of all of them. |
| HotProgram.WriteOffice | pkg/bsp/hot.go:313-382 | One pass numbers the records and runs up the totals by code, by currency and for the cycle. |
| HotProgram.Write | pkg/bsp/hot.go:274-415 | The text is that of the file's records, each with the number of its place. |
| HotProgram.ReadRecord | pkg/bsp/hot.go:631-753 | One record does to the reader what the specification says, by its identifier. |
| HotProgram.Parse | pkg/bsp/hot.go:597-765 | The loop over lines gives the specified file or the specified error. |
| HotProgram.OfficeTotals | pkg/bsp/hot.go:769-783 | The nested loops give the reader's totals. |
| DcsSeating.TakingLeavesFree | pkg/dcs/seatmap.go:128-146 | Taking a free seat leaves one fewer free in its own compartment and as many as before in every other. |
| EdifactPositions.AssembleByPosition | pkg/edifact/interchange.go:352-440 | Any flat list gives, by position alone, one message per UNH with the body up to its end and its own UNT, one group per UNG with its messages and its own UNE, the last UNB and UNZ, and one remark per segment out of place. |
| EdifactPositions.GroupsHoldWhatStartsInThem | pkg/edifact/interchange.go:358-385 | Every group holds exactly the messages that start between its UNG and its end if and only if no UNG comes inside a message. |
| EdifactPositions.MessageOpenAtGroup | pkg/edifact/interchange.go:376-385 | A list with a UNG inside a message: the message goes to the group it ends in. |
| EdifactGroups.AssembleGroups | pkg/edifact/encode.go:164-195 | An envelope of complete groups regroups into exactly those groups, with no remark. |
| EdifactGroups.EnvelopePassesExactly | pkg/edifact/interchange.go:445-507 | Validation is silent if and only if both ends, every group and every message agree in reference and count, and finds an Error if and only if one does not. |
| EdifactGroups.EveryRemarkIsOwed | pkg/edifact/interchange.go:445-507 | Each remark of validation is made if and only if what it names is so of the ends, of some group or of some message. |
| EdifactGroups.FinalisedGroupsPass | pkg/edifact/encode.go:203-236 | An interchange of groups, finalised and flattened, regroups into its groups and passes validation without a remark. |
| EdifactReports.AnyBodyReads | pkg/edifact/contrl.go:436-471 | Any segments read as reports by position: each UCM, the UCS in it and the UCD in those, what comes too early passed over. |
| EdifactReports.ReportColumns | pkg/edifact/contrl.go:372-406 | Which data element of UCI, UCM, UCS and UCD holds which part of the report. |
| RelayRouting.TablesHold | pkg/gateway/gateway.go:267-286 | Whatever links are added, each table holds for a key the last one added with it. |
| RelayRouting.CarrierAddress | pkg/gateway/gateway.go:299-319 | An address built of location, department and carrier goes to the link listing it, else to the last link of that carrier, else nowhere. |
| RelayRouting.IndicatorAddress | pkg/gateway/gateway.go:305-314 | An indicator built of location, designator and department goes to the link listing it, else to its designator's, else to the air traffic link. |
| RelayRouting.OtherAddress | pkg/gateway/gateway.go:299-319 | Any other text goes only to a link that lists it. |
| RelayRouting.FanoutAccounts | pkg/gateway/gateway.go:354-398 | Whatever sends fail, each address gets its one delivery in order, no trunk carries the message twice, and an address fails only when its link is down and its trunk does not carry it already. |
| RelayRouting.RelaySettles | pkg/gateway/gateway.go:847-943 | Relaying is done with a message if and only if it lists somebody and nobody on it is this switch; it then counts as applied if and only if some copy went out. |
| RelayRouting.RelayDelivers | pkg/gateway/gateway.go:847-943 | Each address forwarded, in line order, gets its delivery. |
| CrewLawful.CheckedIsLimits | pkg/crew/crew.go:152-180 | Block time has no extension; the duty period, at every leg, has one and says when it needs it; the reason names the first limit broken. |
| CrewLawful.UsedCountsTicks | pkg/crew/cumulative.go:131-209 | A look-back total is the number of ticks in the air or on duty, past and planned, inside the look-back. |
| CrewLawful.WindowIsLookBack | pkg/crew/cumulative.go:34-41 | The ticks looked back over are those of the last hours, or of the last calendar days with today the last. |
| CrewLawful.VerdictSays | pkg/crew/cumulative.go:93-124 | The reason names the first of duty limits, rest, free time and look-backs that is broken, and the totals are given once the first three hold. |
| CrewLawful.FlownAsChecked | pkg/crew/cumulative.go:257-268 | Once filed, a duty counts in every look-back for exactly what it was checked for. |
| DcsCounter.ResolvedIsNamed | pkg/dcs/checkin.go:76-119 | The passengers found are, in list order, those named who may be accepted; where there are none the error says which of three things is so. |
| DcsCounter.AcceptedExactly | pkg/dcs/checkin.go:43-196 | A party is accepted if and only if the stage admits it, the request names somebody acceptable, one alone for a seat of its own, and the seats are there; what it gets and every refusal are stated in the flight's own fields. |
| DcsCounter.PartySitsTogether | pkg/dcs/seatmap.go:182-242 | A party's seats in a cabin are in one aisle block whenever some block has room for them. |
| DcsCounter.FieldsAreRuns | pkg/dcs/seatmap.go:182-242 | The letters of an aisle block run from an aisle or the side to the next. |
| DcsCounter.GoShowServed | pkg/dcs/checkin.go:218-300 | A go-show waits if and only if it asks to, is on staff travel, or the free seats of its cabin do not outnumber the passengers listed for it; any other is accepted, unless the seat it named is taken or unknown, which leaves no trace but an ID. |
| DcsDoor.BoardMeans | pkg/dcs/checkin.go:303-336 | Whoever has been accepted boards, once, while the door is open; each refusal says why not. |
| DcsDoor.OffloadMeans | pkg/dcs/checkin.go:338-373 | Whoever holds a seat comes off while the door is open: the seat is free, every bag is to come off, nobody else changes. |
| DcsDoor.CancelMeans | pkg/dcs/checkin.go:631-667 | A cancelled flight has nobody aboard and no seat taken, and nobody counts as a no-show. |
| DcsDoor.ReconciliationLists | pkg/dcs/checkin.go:505-523 | The reconciliation lists, by tag and passenger, the bags loaded for somebody not on board and those on-board passengers are missing. |
| DcsDoor.CloseMeans | pkg/dcs/checkin.go:541-614 | The door closes if and only if it is not closed, check-in is over or it is forced, and, where asked for, no loaded bag is without its passenger; who comes off, the bags that go and their weight are stated passenger by passenger. |
| DcsDoor.TagMarks | pkg/dcs/dcs.go:1106-1116 | A reported tag marks the first bag that carries it and nothing else. |
| DcsLists.ClassSitsByTurn | pkg/dcs/seatmap.go:97-126 | A class sits in the first cabin of its turn that the aircraft has, and in Y when it has none. |
| DcsLists.SameParty | pkg/dcs/dcs.go:787-792 | Two items are one party if and only if locator and surname agree, or without locators the surname and all given names. |
| DcsLists.AdditionMeans | pkg/dcs/dcs.go:804-844 | A party on the list is not added again; one all deleted has its first member alone put back; a new one joins the end, one passenger for each counted or named. |
| DcsLists.DeletionMeans | pkg/dcs/dcs.go:982-1003 | Members listed or waiting are struck; accepted or boarded ones stay and are marked; nobody else changes. |
| DcsLists.AmendmentMeans | pkg/dcs/dcs.go:1005-1030 | Members still listed move to the new class; those accepted stay as they are; a party not on the list is added. |
| DcsLists.ListMeans | pkg/dcs/dcs.go:673-785 | A change list works through deletions, additions and changes; a name list adds each part once, until the final one and before anybody is accepted; neither once the flight is closed. |
| DcsLists.EachIsPresent | pkg/dcs/dcs.go:804-844 | Once a list is worked through, every party it adds is on it. |
| DcsLists.TwiceIsOnce | pkg/dcs/dcs.go:724-785 | A list that comes twice adds nobody the second time. |
| DcsParts.PartsEndWhereTheyMust | pkg/dcs/messages.go:156-176 | A part ends before the last only when it has its fifty lines or has no room for the headings the next one opens with. |
| DcsParts.HeadingsAreWrittenOnce | pkg/dcs/messages.go:152-159 | No part repeats a heading its reader is still under. |
| DcsTrim.AftFirstIsOrder | pkg/dcs/load.go:497-501 | The order cargo is loaded in descends by arm and keeps the listed order of equals. |
| DcsTrim.CargoGoesAft | pkg/dcs/load.go:335-360 | A hold takes cargo or mail only when every hold further aft, and every one listed before it at the same arm, is full. |
| DcsTrim.PouringFillsInOrder | pkg/dcs/load.go:384-402 | A hold takes kilos only when all before it are full, and none loses any. |
| DcsTrim.BagsGoBySplit | pkg/dcs/load.go:341-402 | Forward of the datum go the kilos of the best share, aft the rest, each as far as there is room. |
| DcsTrim.BuiltInOrder | pkg/dcs/load.go:525-546 | Vacant positions take a compartment's kilos in the order listed, each filled before the next is begun. |
| DcsTrim.BagsCountedByWeight | pkg/dcs/load.go:406-424 | Bags are counted to baggage containers by weight, and the last one takes what rounding leaves. |
| EgressRuns.EveryRunTells | pkg/egress/retry.go:235-293 | In every state of every run what stands where is told by the tries made so far alone. |
| EgressRuns.StandingTells | pkg/egress/retry.go:152-293 | A message waiting is due exactly as long after its last failure as its number of failures calls for; one sent went through last; one given up had every try its peer allows. |
| HotCompute.ComputeMeans | pkg/bsp/hot.go:235-271 | A total not given is fare plus taxes; a commission not given is the rate of the fare alone to the nearest unit, ties away from zero; exactly the last cash payment, added when there is none, carries its amount less commission; the totals are those four. |
| HotLayout.PunchTable | pkg/bsp/hot.go:835-854 | The punched character of each sign and digit is the handbook's. |
| HotLayout.RecordsInOrder | pkg/bsp/hot.go:429-591 | A transaction is a header, then its records by kind in one order, one amounts record for every three taxes and one at least. |
| HotLayout.CashGoesLast | pkg/bsp/hot.go:562-575 | The first cash payment is written last, the others in order. |
| HotLayout.DocumentsNumbered | pkg/bsp/hot.go:429-591 | Every record of a document carries its day, the transaction's number and the document. |
| HotLayout.CommissionStands | pkg/bsp/hot.go:486-496 | The commission record holds rate and amount twice, the amount negated. |
| HotLayout.RowsAreSums | pkg/bsp/hot.go:313-382 | Each subtotal and total written sums exactly the transactions of its code and currency, one row for each that occurs. |
| HotLayout.FootingsStand | pkg/bsp/hot.go:383-413 | Cycle and file totals name the week and the plan and count the offices. |
| Text.TrimSpaceMeans | pkg/gateway/gateway.go:288 | Trimming keeps what stands between the first and the last character that is not blank. |
| Text.UpperMeans | pkg/gateway/gateway.go:288 | Upper case changes the twenty-six letters and nothing else. |
| EdifactTokens.ReadingIsSplitting | pkg/edifact/scan.go:71-273 | Of any text the segments read are its pieces between terminators that have a tag, the unterminated last one too, up to the limit, each split at element, repetition and component separators; none is a refusal. |
| EdifactTokens.ReadsWithoutError | pkg/edifact/scan.go:139-268 | A text is read without an Error if and only if each terminated piece has a tag, they are fewer than the limit, and nothing but line breaks follows the last. |
| HotAnyFile.AnyFileReads | pkg/bsp/hot.go:597-765 | Any list of records is read to its end if and only if nothing is wrong at any place, else refused for the first fault; what is read has an office per office header and a transaction per header in the latest office, put together from the records up to its end. |
| EdifactBuilt.HeadersReadAsGiven | pkg/edifact/encode.go:254-309 | Encoded any way and parsed, the accessors find sender, recipient, date, references and flags of the interchange, and reference and type of each message, as they were given. |
| DcsCabinOrder.SeatsFrontToBack | pkg/dcs/seatmap.go:182-242 | The seats of a compartment are listed by section, then by row, then left to right. |
| DcsCabinOrder.FirstSeatsAreGiven | pkg/dcs/seatmap.go:179-242 | A party gets the first free seats of the first block with enough, else of the compartment, else none; the blocks in order are the compartment's seats. |
| DcsCabinOrder.TakenForKeeps | pkg/dcs/seatmap.go:244-254 | A seat taken can be taken again by its taker and by nobody else. |
| DcsDoor.CloseCheckInMeans | pkg/dcs/checkin.go:375-402 | Check-in closes once and not on a closed flight; closing it again changes nothing. |
| DcsDoor.FirstComer | pkg/dcs/checkin.go:218-300 | On a flight just opened the first passenger seated has ID 1 and sequence number 1. |
| HotLines.FramingDoesNotMatter | pkg/bsp/hot.go:597-623 | Carriage returns, lost trailing blanks, empty lines and a last line not ended make no difference to the records read. |
| HotLines.EveryTextIsFramed | pkg/bsp/hot.go:597-623 | Every text is lines so framed, so that holds of all. |

## Left out

- EDIFACT bytes are characters; nothing depends on their being below 256. Diagnostics carry severity and code only, segments no positions.
- `SkipPreamble`, `PreserveLineBreaks`, the strict mode, repertoire checks and the choice of another syntax when encoding are not modelled; the CONTRL tables that turn diagnostics into a report (`Check`, `Receipt`) are not either.
- Integers are unbounded where the program's are 64 bits wide; the numbers it computes with stay far below that.
- EdifactEnvelope.Parse: takes no options but the segment limit; a preamble to skip, a syntax given from outside, line breaks to keep and repertoire remarks are left out.
- EdifactEnvelope.Interchange.Encode: always encodes under the interchange's own syntax; another one to encode under, the default for an unset one and the repertoire check are left out.
- EdifactBuilt.BuiltRoundTrip: asks that body values fit the syntax (no repetition below version 4, no line breaks), because the printer joins what it cannot repeat and the scanner drops line breaks.
- A run of the relay network assumes that no send fails and that the trunks are acyclic, and takes each switch's routes as given; one switch alone is stated with failing sends and with its routes built link by link (`RelayRouting`). AFTN relay, traces and message records are not modelled.
- Crew times are whole ticks in the clock's own zone without daylight-saving changes; the duty tables are parameters; reasons carry no wording.
- Passengers are values at positions of the flight's list, updated in place there; that two parts of the program hold one passenger object is not captured. Names' titles, tickets, service requests, connections, clocks, alerts and persistence are left out, and bag tags are given rather than issued.
- A cabin is assumed to have disjoint row ranges, distinct capital letters in a row and compartments F, C or Y.
- DcsStation.Flight.CloseFlight: leaves the flight as closing does, but produces no loadsheet and no messages; the load it plans is `DcsLoad.PlanLoad`'s.
- Changing the equipment of a flight is not modelled: it seats passengers without taking the seats. Restoring a party an ADL deleted restores only its first member, as the code does.
- Order of compartments inside one acceptance is not sorted; nothing is taken before all are assigned, so the order cannot be observed.
- Parts of a message are lists of lines; joining and splitting them at line ends, and the parsing of the lines themselves, is left out; NIL is a line like any other.
- The trim score of a load is any function of the share; moments, centre of gravity and the weight limits derived from them are left out.
- The retry queue leaves out cancellation, recovery at start and the store; metrics, logs and the marking of duplicates do not affect it.
- Settlement records carry the columns that decide amounts, counts, totals and where a record belongs; run status, country, cycle dates, itineraries, fare texts, memo reasons and card details are left out, and dates are the six digits a record carries. Characters are ASCII, and a line too long for the line scanner is not considered.
- HotProgram.Compute: returns the computed transaction, where the program fills in the caller's; Write likewise leaves its argument as it was.
- Subtotals are kept under a pair of code and currency where the program joins the two with a bar, so a code with a bar in it is not considered.
- Bookings, tickets, pricing, availability, text formats of the other message families, ingress and the API are not modelled.
