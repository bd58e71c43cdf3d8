/** A departure under control, as a value: who is on the list, who has been accepted,
    boarded or taken off, who holds which seat, and what each operation does to it. */
module DcsFlight {
  import opened Wrappers
  import opened Text
  import Decimal
  import opened DcsCabin

  datatype Status = Listed | Accepted | Boarded | Standby | NoShow | Offloaded | Deleted

  /** How the final sales message classifies a passenger; Ordinary is the empty category. */
  datatype Category = Ordinary | GoShowCategory | NoRec | IdPad | Invol

  datatype Bag = Bag(tag: string, weight: int, loaded: bool, offloaded: bool)

  datatype Passenger = Passenger(id: int, surname: string, given: string, locator: string, party: string, class_: string,
                                 compartment: string, status: Status, category: Category, seat: string, sequence: int,
                                 bags: seq<Bag>, deletedAfterAcceptance: bool)

  predicate Flying(p: Passenger) {
    p.status == Accepted || p.status == Boarded
  }

  /** On the list or waiting: may still be accepted. */
  predicate Waiting(p: Passenger) {
    p.status == Listed || p.status == Standby
  }

  datatype Stage = Open | CheckInClosed | Closed

  datatype BagRef = BagRef(tag: string, passenger: int)

  datatype Reconciliation = Reconciliation(loaded: nat, boarded: nat, unaccompanied: seq<BagRef>, notLoaded: seq<BagRef>)

  /** What closing leaves on the flight: the bag reconciliation and the load's bags. */
  datatype Closure = Closure(reconciliation: Reconciliation, bags: nat, kilos: int)

  datatype Manifest = Manifest(layout: Layout, stage: Stage, passengers: seq<Passenger>, occupied: Occupancy,
                               nextID: int, nextSeq: int, parts: set<int>, complete: bool, closure: Option<Closure>)

  datatype Error = FlightClosed | CheckInHasClosed | CheckInStillOpen | PassengerNotFound | AlreadyAccepted | NotAccepted
                 | AlreadyBoarded | SeatIsTaken | NoSeat | SeatUnknown | ListAfterAccept | OneSeatOneName
                 | NotAcceptable(status: Status) | NoSurname | UnreconciledBags(bags: seq<BagRef>)

  /** Panicked: the operation stops on a result that is not there. */
  datatype Outcome = Done | Refused(error: Error) | Panicked

  function OpenedFor(layout: Layout): Manifest {
    Manifest(layout, Open, [], map[], 1, 1, {}, false, None)
  }

  // ---------------------------------------------------------------- compartments

  predicate HasCompartment(layout: Layout, code: string) {
    exists i | 0 <= i < |layout| :: layout[i].compartment == code
  }

  /** The first of the codes the aircraft has, else the first cabin it has, else Y. */
  function FirstPresent(layout: Layout, want: seq<string>): (comp: string)
    ensures comp in want || comp in ["F", "C", "Y"]
  {
    if want != [] then (if HasCompartment(layout, want[0]) then want[0] else FirstPresent(layout, want[1..]))
    else if HasCompartment(layout, "F") then "F"
    else if HasCompartment(layout, "C") then "C"
    else "Y"
  }

  /** The cabin that seats a booking class. */
  function CompartmentFor(layout: Layout, class_: string): string {
    if class_ in ["F", "A", "P", "R"] then FirstPresent(layout, ["F", "C", "Y"])
    else if class_ in ["J", "C", "D", "I", "Z"] then FirstPresent(layout, ["C", "Y", "F"])
    else FirstPresent(layout, ["Y", "C", "F"])
  }

  // ---------------------------------------------------------------- finding passengers

  /** The position of the first passenger with the ID. */
  function Find(ps: seq<Passenger>, id: int): (i: Option<nat>)
    ensures i.Some? ==> i.value < |ps| && ps[i.value].id == id
  {
    if ps == [] then None
    else
      var earlier := Find(ps[..|ps| - 1], id);
      if earlier.Some? then earlier else if ps[|ps| - 1].id == id then Some(|ps| - 1) else None
  }

  predicate Matches(p: Passenger, locator: string, surname: string) {
    (locator != "" ==> p.locator == locator) && (surname != "" ==> p.surname == surname)
  }

  /** The waiting passengers of a record. */
  function WaitingOf(ps: seq<Passenger>, locator: string, surname: string): (r: seq<nat>)
    ensures forall k | 0 <= k < |r| :: r[k] < |ps| && Waiting(ps[r[k]])
    ensures forall j, k | 0 <= j < k < |r| :: r[j] < r[k]
  {
    if ps == [] then []
    else
      var i := |ps| - 1;
      WaitingOf(ps[..i], locator, surname) + (if Matches(ps[i], locator, surname) && Waiting(ps[i]) then [i] else [])
  }

  datatype AcceptRequest = AcceptRequest(passengerID: int, locator: string, surname: string, seat: string, bags: seq<Bag>,
                                         force: bool)

  datatype Resolved = Targets(targets: seq<nat>) | Unresolved(error: Error)

  /** The passengers a request names. */
  function Resolve(ps: seq<Passenger>, req: AcceptRequest): (r: Resolved)
    ensures r.Targets? ==> r.targets != [] && (forall k | 0 <= k < |r.targets| :: r.targets[k] < |ps| && Waiting(ps[r.targets[k]]))
    ensures r.Targets? ==> forall j, k | 0 <= j < k < |r.targets| :: r.targets[j] < r.targets[k]
  {
    if req.passengerID > 0 then
      var i := Find(ps, req.passengerID);
      if i.None? || ps[i.value].status == Deleted then Unresolved(PassengerNotFound)
      else if Flying(ps[i.value]) then Unresolved(AlreadyAccepted)
      else if Waiting(ps[i.value]) then Targets([i.value])
      else Unresolved(NotAcceptable(ps[i.value].status))
    else
      var locator, surname := Normalise(req.locator), Normalise(req.surname);
      if locator == "" && surname == "" then Unresolved(PassengerNotFound)
      else
        var waiting := WaitingOf(ps, locator, surname);
        if waiting != [] then Targets(waiting)
        else if exists p :: p in ps && Matches(p, locator, surname) && Flying(p) then Unresolved(AlreadyAccepted)
        else Unresolved(PassengerNotFound)
  }

  // ---------------------------------------------------------------- acceptance

  /** How many of the targets sit in the compartment. */
  function GroupSize(ps: seq<Passenger>, targets: seq<nat>, comp: string): nat
    requires forall k | 0 <= k < |targets| :: targets[k] < |ps|
  {
    if targets == [] then 0
    else
      GroupSize(ps, targets[..|targets| - 1], comp) + (if ps[targets[|targets| - 1]].compartment == comp then 1 else 0)
  }

  lemma {:induction false} GroupGrows(ps: seq<Passenger>, targets: seq<nat>, k: nat)
    requires k < |targets| && forall j | 0 <= j < |targets| :: targets[j] < |ps|
    ensures GroupSize(ps, targets[..k], ps[targets[k]].compartment) < GroupSize(ps, targets, ps[targets[k]].compartment)
    decreases |targets|
  {
    var init := targets[..|targets| - 1];
    if k < |init| {
      assert init[..k] == targets[..k];
      GroupGrows(ps, init, k);
    }
  }

  /** The seats of target k's compartment that are found for all who sit in it. */
  function GroupSeats(m: Manifest, targets: seq<nat>, k: nat): Option<seq<string>>
    requires k < |targets| && forall j | 0 <= j < |targets| :: targets[j] < |m.passengers|
  {
    var comp := m.passengers[targets[k]].compartment;
    Assigned(m.layout, m.occupied, comp, GroupSize(m.passengers, targets, comp))
  }

  predicate AllSeatable(m: Manifest, targets: seq<nat>)
    requires forall j | 0 <= j < |targets| :: targets[j] < |m.passengers|
  {
    forall k | 0 <= k < |targets| :: GroupSeats(m, targets, k).Some?
  }

  /** Each target's seat: those of one compartment are seated in order. */
  function PartySeats(m: Manifest, targets: seq<nat>): (seats: seq<string>)
    requires (forall j | 0 <= j < |targets| :: targets[j] < |m.passengers|) && AllSeatable(m, targets)
    ensures |seats| == |targets|
  {
    seq(|targets|, k requires 0 <= k < |targets| => SeatOfTarget(m, targets, k))
  }

  function SeatOfTarget(m: Manifest, targets: seq<nat>, k: nat): string
    requires (forall j | 0 <= j < |targets| :: targets[j] < |m.passengers|) && AllSeatable(m, targets)
    requires k < |targets|
  {
    GroupGrows(m.passengers, targets, k);
    GroupSeats(m, targets, k).value[GroupSize(m.passengers, targets[..k], m.passengers[targets[k]].compartment)]
  }

  /** One passenger takes a seat and gets the next sequence number. */
  function Seated(m: Manifest, i: nat, seat: string): Manifest
    requires i < |m.passengers|
  {
    var p := m.passengers[i];
    m.(occupied := m.occupied[seat := p.id],
       passengers := m.passengers[i := p.(seat := seat, status := Accepted, sequence := m.nextSeq)],
       nextSeq := m.nextSeq + 1)
  }

  function ErrorOf(e: SeatError): Error {
    match e
    case NoSuchSeat => SeatUnknown
    case SeatTaken => SeatIsTaken
  }

  /** Each target takes its seat in turn; an error stops there, with those before it seated. */
  function TakeAll(m: Manifest, targets: seq<nat>, seats: seq<string>): (r: (Manifest, Outcome))
    requires |seats| == |targets| && forall j | 0 <= j < |targets| :: targets[j] < |m.passengers|
    ensures |r.0.passengers| == |m.passengers|
    decreases |targets|
  {
    if targets == [] then (m, Done)
    else
      match TakeError(m.layout, m.occupied, seats[0], m.passengers[targets[0]].id)
      case Some(e) => (m, Refused(ErrorOf(e)))
      case None => TakeAll(Seated(m, targets[0], seats[0]), targets[1..], seats[1..])
  }

  function WithBags(m: Manifest, i: nat, bags: seq<Bag>): Manifest
    requires i < |m.passengers|
  {
    m.(passengers := m.passengers[i := m.passengers[i].(bags := m.passengers[i].bags + bags)])
  }

  /** Seats the targets and tags the bags for the first of them. A requested seat in
      another cabin moves the passenger there. */
  function AcceptTargets(m: Manifest, targets: seq<nat>, seat: string, bags: seq<Bag>): (r: (Manifest, Outcome))
    requires targets != [] && (forall j | 0 <= j < |targets| :: targets[j] < |m.passengers|)
    requires seat != "" ==> |targets| == 1
    ensures |r.0.passengers| == |m.passengers|
  {
    var lead := targets[0];
    if seat != "" then
      match SeatCompartment(m.layout, Normalise(seat))
      case None => (m, Refused(SeatUnknown))
      case Some(comp) =>
        if Normalise(seat) in m.occupied then (m, Refused(SeatIsTaken))
        else
          var moved := m.(passengers := m.passengers[lead := m.passengers[lead].(compartment := comp)]);
          Tagged(TakeAll(moved, targets, [Normalise(seat)]), lead, bags)
    else if !AllSeatable(m, targets) then (m, Refused(NoSeat))
    else Tagged(TakeAll(m, targets, PartySeats(m, targets)), lead, bags)
  }

  function Tagged(r: (Manifest, Outcome), lead: nat, bags: seq<Bag>): (tagged: (Manifest, Outcome))
    requires lead < |r.0.passengers|
    ensures |tagged.0.passengers| == |r.0.passengers|
  {
    if r.1.Done? then (WithBags(r.0, lead, bags), Done) else r
  }

  function AfterAccept(m: Manifest, req: AcceptRequest): (Manifest, Outcome) {
    if m.stage == Closed then (m, Refused(FlightClosed))
    else if m.stage == CheckInClosed && !req.force then (m, Refused(CheckInHasClosed))
    else
      match Resolve(m.passengers, req)
      case Unresolved(e) => (m, Refused(e))
      case Targets(targets) =>
        if req.seat != "" && |targets| > 1 then (m, Refused(OneSeatOneName))
        else AcceptTargets(m, targets, req.seat, req.bags)
  }

  // ---------------------------------------------------------------- go-shows

  datatype GoShow = GoShow(surname: string, given: string, class_: string, locator: string, category: Category,
                           seat: string, bags: seq<Bag>, standby: bool)

  function GoShowAs(g: GoShow): Category {
    if g.category != Ordinary then g.category else if g.locator != "" then GoShowCategory else NoRec
  }

  function Newcomer(m: Manifest, g: GoShow): Passenger {
    var class_ := if g.class_ == "" then "Y" else g.class_;
    Passenger(m.nextID, Upper(g.surname), Upper(g.given), Upper(g.locator),
              "GOSHOW/" + Decimal.Itoa(m.nextID) + "/" + Upper(g.surname), class_, CompartmentFor(m.layout, class_),
              Standby, GoShowAs(g), "", 0, [], false)
  }

  function Enlisted(m: Manifest, p: Passenger): Manifest {
    m.(passengers := m.passengers + [p], nextID := m.nextID + 1)
  }

  /** How many on the list have yet to come to the counter for the compartment. */
  function Owed(ps: seq<Passenger>, comp: string): nat {
    if ps == [] then 0
    else Owed(ps[..|ps| - 1], comp) + (if ps[|ps| - 1].status == Listed && ps[|ps| - 1].compartment == comp then 1 else 0)
  }

  /** Seats neither occupied nor owed to a listed passenger. */
  function Spare(m: Manifest, comp: string): int {
    FreeCount(m.layout, m.occupied, comp) - Owed(m.passengers, comp)
  }

  predicate MustWait(m: Manifest, g: GoShow, comp: string) {
    g.standby || GoShowAs(g) == IdPad || Spare(m, comp) <= 0
  }

  /** Adds a passenger the list did not carry. One turned away for want of a seat
      would be answered with an acceptance that is not there. */
  function AfterGoShow(m: Manifest, g: GoShow): (Manifest, Outcome) {
    if m.stage == Closed then (m, Refused(FlightClosed))
    else if m.stage == CheckInClosed then (m, Refused(CheckInHasClosed))
    else if g.surname == "" then (m, Refused(NoSurname))
    else
      var n := |m.passengers|;
      var with := Enlisted(m, Newcomer(m, g));
      if MustWait(with, g, Newcomer(m, g).compartment) then (with, Done)
      else
        var r := AcceptTargets(with, [n], g.seat, g.bags);
        match r.1
        case Done => r
        case Refused(e) =>
          if e == NoSeat then (r.0, Panicked) else (r.0.(passengers := r.0.passengers[..n]), Refused(e))
        case Panicked => r
  }

  // ---------------------------------------------------------------- boarding and taking off

  function AfterBoard(m: Manifest, id: int): (Manifest, Outcome) {
    if m.stage == Closed then (m, Refused(FlightClosed))
    else
      match Find(m.passengers, id)
      case None => (m, Refused(PassengerNotFound))
      case Some(i) =>
        var p := m.passengers[i];
        if p.status == Boarded then (m, Refused(AlreadyBoarded))
        else if p.status != Accepted then (m, Refused(NotAccepted))
        else (m.(passengers := m.passengers[i := p.(status := Boarded)]), Done)
  }

  function OffBags(bags: seq<Bag>): (r: seq<Bag>)
    ensures |r| == |bags| && forall i | 0 <= i < |r| :: r[i] == bags[i].(offloaded := true)
  {
    seq(|bags|, i requires 0 <= i < |bags| => bags[i].(offloaded := true))
  }

  /** Taken off with every bag. The passenger remembers the seat. */
  function TakenOff(p: Passenger): Passenger {
    p.(status := Offloaded, bags := OffBags(p.bags))
  }

  function SeatHeld(p: Passenger): set<string> {
    if p.seat != "" then {p.seat} else {}
  }

  function AfterOffload(m: Manifest, id: int): (Manifest, Outcome) {
    if m.stage == Closed then (m, Refused(FlightClosed))
    else
      match Find(m.passengers, id)
      case None => (m, Refused(PassengerNotFound))
      case Some(i) =>
        var p := m.passengers[i];
        if !Flying(p) then (m, Refused(NotAccepted))
        else (m.(passengers := m.passengers[i := TakenOff(p)], occupied := m.occupied - SeatHeld(p)), Done)
  }

  // ---------------------------------------------------------------- closing check-in

  /** Revenue passengers before staff, then in the order they presented. */
  predicate Before(p: Passenger, q: Passenger) {
    if (p.category == IdPad) != (q.category == IdPad) then p.category != IdPad else p.id < q.id
  }

  function StandbyOf(ps: seq<Passenger>): (r: seq<nat>)
    ensures forall k | 0 <= k < |r| :: r[k] < |ps|
    ensures forall i: nat :: i in r <==> i < |ps| && ps[i].status == Standby
    ensures forall j, k | 0 <= j < k < |r| :: r[j] < r[k]
  {
    if ps == [] then []
    else
      var i := |ps| - 1;
      var earlier := StandbyOf(ps[..i]);
      assert forall k | 0 <= k < |earlier| :: earlier[k] in earlier;
      earlier + (if ps[i].status == Standby then [i] else [])
  }

  /** Where a stable sort puts one more: behind everyone it does not go before. */
  function PlaceFor(ps: seq<Passenger>, order: seq<nat>, i: nat): (k: nat)
    requires i < |ps| && forall j | 0 <= j < |order| :: order[j] < |ps|
    ensures k <= |order|
    ensures forall j | k <= j < |order| :: Before(ps[i], ps[order[j]])
    ensures k > 0 ==> !Before(ps[i], ps[order[k - 1]])
  {
    if order == [] || !Before(ps[i], ps[order[|order| - 1]]) then |order| else PlaceFor(ps, order[..|order| - 1], i)
  }

  /** The order the standby list is cleared in. */
  function Ranked(ps: seq<Passenger>, waiting: seq<nat>): (order: seq<nat>)
    requires forall k | 0 <= k < |waiting| :: waiting[k] < |ps|
    ensures forall k | 0 <= k < |order| :: order[k] < |ps|
  {
    if waiting == [] then []
    else
      var i, order := waiting[|waiting| - 1], Ranked(ps, waiting[..|waiting| - 1]);
      var k := PlaceFor(ps, order, i);
      order[..k] + [i] + order[k..]
  }

  /** Each in turn gets a seat if there is one; who does not, stays. */
  function ClearAll(m: Manifest, order: seq<nat>): (r: Manifest)
    requires forall k | 0 <= k < |order| :: order[k] < |m.passengers|
    ensures |r.passengers| == |m.passengers|
    decreases |order|
  {
    if order == [] then m else ClearAll(AcceptTargets(m, [order[0]], "", []).0, order[1..])
  }

  function CheckInOver(m: Manifest): Manifest {
    if m.stage != Open then m
    else ClearAll(m.(stage := CheckInClosed), Ranked(m.passengers, StandbyOf(m.passengers)))
  }

  function AfterCloseCheckIn(m: Manifest): (Manifest, Outcome) {
    if m.stage == Closed then (m, Refused(FlightClosed)) else (CheckInOver(m), Done)
  }

  // ---------------------------------------------------------------- closing the flight

  /** At the door: not seen is a no-show, not boarded comes off. */
  function AtDoor(p: Passenger): Passenger {
    match p.status
    case Listed => p.(status := NoShow)
    case Accepted => TakenOff(p)
    case _ => p
  }

  function AllAtDoor(ps: seq<Passenger>): (r: seq<Passenger>)
    ensures |r| == |ps| && forall i | 0 <= i < |r| :: r[i] == AtDoor(ps[i])
  {
    seq(|ps|, i requires 0 <= i < |ps| => AtDoor(ps[i]))
  }

  /** The seats given up at the door. */
  function SeatsGivenUp(ps: seq<Passenger>): set<string> {
    if ps == [] then {}
    else SeatsGivenUp(ps[..|ps| - 1]) + (if ps[|ps| - 1].status == Accepted then SeatHeld(ps[|ps| - 1]) else {})
  }

  const NOTHING_MATCHED := Reconciliation(0, 0, [], [])

  /** One bag, matched against its passenger. */
  function MatchBag(r: Reconciliation, p: Passenger, b: Bag): Reconciliation {
    if b.loaded then
      if p.status == Boarded then r.(loaded := r.loaded + 1, boarded := r.boarded + 1)
      else r.(loaded := r.loaded + 1, unaccompanied := r.unaccompanied + [BagRef(b.tag, p.id)])
    else if p.status == Boarded && !b.offloaded then r.(notLoaded := r.notLoaded + [BagRef(b.tag, p.id)])
    else r
  }

  function MatchBags(r: Reconciliation, p: Passenger, bags: seq<Bag>): Reconciliation {
    if bags == [] then r else MatchBag(MatchBags(r, p, bags[..|bags| - 1]), p, bags[|bags| - 1])
  }

  /** The hold against the cabin. */
  function Reconciled(ps: seq<Passenger>): Reconciliation {
    if ps == [] then NOTHING_MATCHED
    else MatchBags(Reconciled(ps[..|ps| - 1]), ps[|ps| - 1], ps[|ps| - 1].bags)
  }

  /** A loaded bag whose passenger did not fly comes off the aircraft. */
  function Pulled(p: Passenger): Passenger {
    if p.status == Boarded then p else p.(bags := PulledBags(p.bags))
  }

  function PulledBags(bags: seq<Bag>): (r: seq<Bag>)
    ensures |r| == |bags|
    ensures forall i | 0 <= i < |r| :: r[i] == if bags[i].loaded then bags[i].(loaded := false, offloaded := true) else bags[i]
  {
    seq(|bags|, i requires 0 <= i < |bags| =>
      if bags[i].loaded then bags[i].(loaded := false, offloaded := true) else bags[i])
  }

  function AllPulled(ps: seq<Passenger>): (r: seq<Passenger>)
    ensures |r| == |ps| && forall i | 0 <= i < |r| :: r[i] == Pulled(ps[i])
  {
    seq(|ps|, i requires 0 <= i < |ps| => Pulled(ps[i]))
  }

  /** Bags and kilos not marked off. */
  function BagLoad(bags: seq<Bag>): (nat, int) {
    if bags == [] then (0, 0)
    else
      var b, (n, kilos) := bags[|bags| - 1], BagLoad(bags[..|bags| - 1]);
      if b.offloaded then (n, kilos) else (n + 1, kilos + b.weight)
  }

  /** The bags load planning counts: those of boarded passengers. */
  function PlannedBags(ps: seq<Passenger>): (nat, int) {
    if ps == [] then (0, 0)
    else
      var p, (n, kilos) := ps[|ps| - 1], PlannedBags(ps[..|ps| - 1]);
      if p.status == Boarded then (n + BagLoad(p.bags).0, kilos + BagLoad(p.bags).1) else (n, kilos)
  }

  /** The bags the departures board counts: those of everyone holding a seat. */
  function CountedBags(ps: seq<Passenger>): (nat, int) {
    if ps == [] then (0, 0)
    else
      var p, (n, kilos) := ps[|ps| - 1], CountedBags(ps[..|ps| - 1]);
      if Flying(p) then (n + BagLoad(p.bags).0, kilos + BagLoad(p.bags).1) else (n, kilos)
  }

  datatype CloseOptions = CloseOptions(requireReconciled: bool, force: bool)

  /** The door closing. Refused for unreconciled bags, the offloads stand and the door
      stays open. */
  function AfterCloseFlight(m: Manifest, opts: CloseOptions): (Manifest, Outcome) {
    if m.stage == Closed then (m, Refused(FlightClosed))
    else if m.stage == Open && !opts.force then (m, Refused(CheckInStillOpen))
    else
      var ready := CheckInOver(m);
      var atDoor := ready.(passengers := AllAtDoor(ready.passengers),
                           occupied := ready.occupied - SeatsGivenUp(ready.passengers));
      var rec := Reconciled(atDoor.passengers);
      if opts.requireReconciled && rec.unaccompanied != [] then (atDoor, Refused(UnreconciledBags(rec.unaccompanied)))
      else
        var ps := AllPulled(atDoor.passengers);
        var (bags, kilos) := PlannedBags(ps);
        (atDoor.(passengers := ps, stage := Closed, closure := Some(Closure(rec, bags, kilos))), Done)
  }

  /** A cancelled flight: whoever is accepted or boarded comes off, nobody is a no-show. */
  function Grounded(p: Passenger): Passenger {
    if Flying(p) then TakenOff(p) else p
  }

  function AllGrounded(ps: seq<Passenger>): (r: seq<Passenger>)
    ensures |r| == |ps| && forall i | 0 <= i < |r| :: r[i] == Grounded(ps[i])
  {
    seq(|ps|, i requires 0 <= i < |ps| => Grounded(ps[i]))
  }

  function SeatsOf(ps: seq<Passenger>): set<string> {
    if ps == [] then {}
    else SeatsOf(ps[..|ps| - 1]) + (if Flying(ps[|ps| - 1]) then SeatHeld(ps[|ps| - 1]) else {})
  }

  function AfterCancel(m: Manifest): (Manifest, Outcome) {
    if m.stage == Closed then (m, Refused(FlightClosed))
    else
      (m.(passengers := AllGrounded(m.passengers), occupied := m.occupied - SeatsOf(m.passengers), stage := Closed), Done)
  }

  // ---------------------------------------------------------------- the name list

  /** A name item; the locator is its .L element, empty when there is none. */
  datatype Name = Name(surname: string, givens: seq<string>, party: int, locator: string)

  datatype Change = Delete | Add | Amend

  datatype Group = Group(class_: string, names: seq<Name>, sections: seq<(Change, seq<Name>)>)

  datatype ListKind = PNL | ADL

  datatype NameList = NameList(kind: ListKind, part: int, final: bool, groups: seq<Group>)

  function Joined(parts: seq<string>): string {
    if parts == [] then "" else if |parts| == 1 then parts[0] else Joined(parts[..|parts| - 1]) + "/" + parts[|parts| - 1]
  }

  function PartyKey(n: Name): string {
    if n.locator != "" then n.locator + "/" + n.surname else n.surname + "/" + Joined(n.givens)
  }

  predicate InParty(p: Passenger, key: string) {
    p.party == key && p.status != Deleted
  }

  predicate IsListed(ps: seq<Passenger>, key: string) {
    exists i | 0 <= i < |ps| :: InParty(ps[i], key)
  }

  /** The first passenger of the party that was deleted. */
  function FirstDeleted(ps: seq<Passenger>, key: string): (i: Option<nat>)
    ensures i.Some? ==> i.value < |ps| && ps[i.value].party == key && ps[i.value].status == Deleted
  {
    if ps == [] then None
    else
      var earlier, p := FirstDeleted(ps[..|ps| - 1], key), ps[|ps| - 1];
      if earlier.Some? then earlier else if p.party == key && p.status == Deleted then Some(|ps| - 1) else None
  }

  function PartySize(n: Name): nat {
    if n.party > 0 then n.party else if |n.givens| > 1 then |n.givens| else 1
  }

  /** Passenger i of a name item; a name the item does not give is not known yet. */
  function ListedName(m: Manifest, class_: string, n: Name, i: nat): Passenger {
    Passenger(m.nextID, n.surname, if i < |n.givens| then n.givens[i] else "TBA", n.locator, PartyKey(n), class_,
              CompartmentFor(m.layout, class_), Listed, Ordinary, "", 0, [], false)
  }

  function EnlistedAll(m: Manifest, class_: string, n: Name, count: nat): Manifest {
    if count == 0 then m
    else
      var before := EnlistedAll(m, class_, n, count - 1);
      Enlisted(before, ListedName(before, class_, n, count - 1))
  }

  /** A party already listed is not listed twice; of one deleted earlier the first
      member is put back on the list; anyone else is new. */
  function AddNames(m: Manifest, class_: string, n: Name): Manifest {
    var key := PartyKey(n);
    if IsListed(m.passengers, key) then m
    else
      match FirstDeleted(m.passengers, key)
      case Some(i) =>
        m.(passengers := m.passengers[i := m.passengers[i].(status := Listed, class_ := class_,
                                                            compartment := CompartmentFor(m.layout, class_))])
      case None => EnlistedAll(m, class_, n, PartySize(n))
  }

  /** Deleted, unless the airport already has them. */
  function Struck(p: Passenger, key: string): Passenger {
    if !InParty(p, key) then p
    else if Waiting(p) then p.(status := Deleted)
    else if Flying(p) then p.(deletedAfterAcceptance := true)
    else p
  }

  function DeleteNames(m: Manifest, n: Name): Manifest {
    m.(passengers := seq(|m.passengers|, i requires 0 <= i < |m.passengers| => Struck(m.passengers[i], PartyKey(n))))
  }

  /** The class changes only for members still on the list. */
  function Amended(layout: Layout, p: Passenger, class_: string, key: string): Passenger {
    if InParty(p, key) && class_ != "" && p.status == Listed
    then p.(class_ := class_, compartment := CompartmentFor(layout, class_))
    else p
  }

  function ChangeNames(m: Manifest, class_: string, n: Name): Manifest {
    if !IsListed(m.passengers, PartyKey(n)) then AddNames(m, class_, n)
    else
      m.(passengers := seq(|m.passengers|, i requires 0 <= i < |m.passengers| =>
           Amended(m.layout, m.passengers[i], class_, PartyKey(n))))
  }

  function ApplyName(m: Manifest, change: Change, class_: string, n: Name): Manifest {
    match change
    case Delete => DeleteNames(m, n)
    case Add => AddNames(m, class_, n)
    case Amend => ChangeNames(m, class_, n)
  }

  function ApplyNames(m: Manifest, change: Change, class_: string, names: seq<Name>): Manifest {
    if names == [] then m
    else ApplyName(ApplyNames(m, change, class_, names[..|names| - 1]), change, class_, names[|names| - 1])
  }

  function ApplySections(m: Manifest, change: Change, class_: string, sections: seq<(Change, seq<Name>)>): Manifest {
    if sections == [] then m
    else
      var before, s := ApplySections(m, change, class_, sections[..|sections| - 1]), sections[|sections| - 1];
      if s.0 == change then ApplyNames(before, change, class_, s.1) else before
  }

  function ApplyGroups(m: Manifest, change: Change, groups: seq<Group>): Manifest {
    if groups == [] then m
    else
      var g := groups[|groups| - 1];
      ApplySections(ApplyGroups(m, change, groups[..|groups| - 1]), change, g.class_, g.sections)
  }

  function ListGroups(m: Manifest, groups: seq<Group>): Manifest {
    if groups == [] then m
    else
      var g := groups[|groups| - 1];
      ApplyNames(ListGroups(m, groups[..|groups| - 1]), Add, g.class_, g.names)
  }

  predicate AcceptanceBegun(ps: seq<Passenger>) {
    exists i | 0 <= i < |ps| :: ps[i].status != Listed && ps[i].status != Deleted
  }

  function AfterPNL(m: Manifest, list: NameList): (Manifest, Outcome) {
    if AcceptanceBegun(m.passengers) then (m, Refused(ListAfterAccept))
    else if list.part in m.parts || m.complete then (m, Done)
    else
      var listed := ListGroups(m.(parts := m.parts + {list.part}), list.groups);
      (if list.final then listed.(complete := true) else listed, Done)
  }

  /** Deletions first, then additions, then changes. */
  function AfterADL(m: Manifest, list: NameList): Manifest {
    ApplyGroups(ApplyGroups(ApplyGroups(m, Delete, list.groups), Add, list.groups), Amend, list.groups)
  }

  function AfterNameList(m: Manifest, list: NameList): (Manifest, Outcome) {
    if m.stage == Closed then (m, Refused(FlightClosed))
    else
      match list.kind
      case PNL => AfterPNL(m, list)
      case ADL => (AfterADL(m, list), Done)
  }

  // ---------------------------------------------------------------- bag reports

  predicate HasTag(bags: seq<Bag>, tag: string) {
    exists j | 0 <= j < |bags| :: bags[j].tag == tag
  }

  /** The first bag with the tag is on board. */
  function LoadFirst(bags: seq<Bag>, tag: string): (r: seq<Bag>)
    ensures |r| == |bags| && forall j | 0 <= j < |r| :: r[j] == bags[j] || r[j] == bags[j].(loaded := true)
  {
    if bags == [] then []
    else if bags[0].tag == tag then [bags[0].(loaded := true)] + bags[1..]
    else [bags[0]] + LoadFirst(bags[1..], tag)
  }

  function MarkLoaded(ps: seq<Passenger>, tag: string): (r: seq<Passenger>)
    ensures |r| == |ps|
    ensures forall i | 0 <= i < |r| :: r[i] == ps[i] || r[i] == ps[i].(bags := LoadFirst(ps[i].bags, tag))
  {
    if ps == [] then []
    else if HasTag(ps[0].bags, tag) then [ps[0].(bags := LoadFirst(ps[0].bags, tag))] + ps[1..]
    else [ps[0]] + MarkLoaded(ps[1..], tag)
  }

  /** The sortation system's word, at any stage of the flight. */
  function AfterBagReport(m: Manifest, tags: seq<string>): Manifest {
    if tags == [] then m
    else
      var before := AfterBagReport(m, tags[..|tags| - 1]);
      before.(passengers := MarkLoaded(before.passengers, tags[|tags| - 1]))
  }

  // ---------------------------------------------------------------- rebuilding occupancy

  /** Occupancy rebuilt from the passengers who hold seats. */
  function Reindexed(ps: seq<Passenger>): Occupancy {
    if ps == [] then map[]
    else
      var p := ps[|ps| - 1];
      if p.seat != "" && Flying(p) then Reindexed(ps[..|ps| - 1])[p.seat := p.id] else Reindexed(ps[..|ps| - 1])
  }
}
