/** The schedule of all events: which slots may be booked, and what every sequence of bookings keeps. */
module Scheduling {
  import opened Common

  type Id = nat

  datatype Status = Scheduled | Cancelled | Completed
  datatype Slot = Slot(venue: Option<Id>, title: string, start: Option<int>, end: Option<int>,
                       resource: Option<string>, expected: Option<int>)
  datatype Item = Item(id: Id, event: Id, slot: Slot, status: Status)
  datatype Window = Window(start: int, end: int) | Malformed
  datatype Venue = Venue(event: Id, shared: bool, capacity: Option<int>, availability: seq<Window>, description: string)
  datatype Event = Event(start: int, end: int, deleted: bool)

  datatype Refusal =
    | EventMissing | BadRange | OutsideEvent | VenueMissing | OverCapacity | BadAvailability | VenueClosed | Overlapping
    | ItemMissing | ItemCancelled | NotCancelled
  datatype Outcome = Done | Refused(reason: Refusal)

  /* ---- Conflicts ---- */

  /** The empty string counts as no resource key. */
  predicate HasKey(slot: Slot) {
    slot.resource.Some? && slot.resource.value != ""
  }

  predicate Overlap(a: Slot, b: Slot) {
    && a.start.Some? && a.end.Some? && b.start.Some? && b.end.Some?
    && a.start.value < b.end.value && a.end.value > b.start.value
  }

  /** The scopes of a request: every scope it names has to match, and it has to name one. */
  predicate InScope(request: Slot, existing: Slot) {
    && (request.venue.Some? || HasKey(request))
    && (request.venue.Some? ==> existing.venue == request.venue)
    && (HasKey(request) ==> existing.resource == request.resource)
  }

  predicate Conflicts(live: set<Id>, request: Slot, exclude: Option<Id>, existing: Item) {
    && existing.status != Cancelled && Overlap(existing.slot, request) && Some(existing.id) != exclude
    && existing.event in live && InScope(request, existing.slot)
  }

  /** Same venue and same resource key, not both missing. */
  predicate SameScope(a: Slot, b: Slot) {
    && a.venue == b.venue
    && (if HasKey(a) then a.resource == b.resource else !HasKey(b) && a.venue.Some?)
  }

  /** A request is checked against exactly the same scope only when both requests see each other. */
  lemma SameScopeIsMutual(a: Slot, b: Slot)
    ensures SameScope(a, b) <==> InScope(a, b) && InScope(b, a)
  {}

  /* ---- Runs ---- */

  datatype Calendar = Calendar(live: set<Id>, items: seq<Item>)
  datatype Move =
    | Insert(item: Item)
    | Reschedule(index: nat, slot: Slot)
    | SetStatus(index: nat, status: Status)
    | Remove(index: nat)
    | EventCreated(event: Id)
    | EventDeleted(event: Id)

  predicate Free(c: Calendar, request: Slot, exclude: Option<Id>) {
    forall k | 0 <= k < |c.items| :: !Conflicts(c.live, request, exclude, c.items[k])
  }

  /** What the calendar itself demands of a change: no conflict, ids and statuses as the service has them, and an event is
      never brought back to life. Times, the event's range and the venue are checked by `Bookable`. */
  predicate Allowed(c: Calendar, m: Move, known: set<Id>) {
    match m
    case Insert(item) => item.event in known && item.status == Scheduled && Free(c, item.slot, None)
                         && forall k | 0 <= k < |c.items| :: c.items[k].id != item.id
    case Reschedule(i, slot) => i < |c.items| && c.items[i].status != Cancelled && Free(c, slot, Some(c.items[i].id))
    case SetStatus(i, status) => i < |c.items| && (status == Cancelled || c.items[i].status != Cancelled)
    case Remove(i) => i < |c.items|
    case EventCreated(e) => e !in known
    case EventDeleted(e) => true
  }

  function Apply(c: Calendar, m: Move): Calendar {
    match m
    case Insert(item) => c.(items := c.items + [item])
    case Reschedule(i, slot) => if i < |c.items| then c.(items := c.items[i := c.items[i].(slot := slot)]) else c
    case SetStatus(i, status) => if i < |c.items| then c.(items := c.items[i := c.items[i].(status := status)]) else c
    case Remove(i) => if i < |c.items| then c.(items := c.items[..i] + c.items[i + 1..]) else c
    case EventCreated(e) => c.(live := c.live + {e})
    case EventDeleted(e) => c.(live := c.live - {e})
  }

  function Known(known: set<Id>, m: Move): set<Id> {
    if m.EventCreated? then known + {m.event} else known
  }

  predicate DoubleBooked(live: set<Id>, a: Item, b: Item) {
    && a.status != Cancelled && b.status != Cancelled && a.event in live && b.event in live
    && SameScope(a.slot, b.slot) && Overlap(a.slot, b.slot)
  }

  /** Distinct ids, items only of events ever created, and no two active items in one scope overlap. */
  predicate Sound(c: Calendar, known: set<Id>) {
    && c.live <= known && (forall k | 0 <= k < |c.items| :: c.items[k].event in known)
    && (forall j, k | 0 <= j < k < |c.items| :: c.items[j].id != c.items[k].id)
    && forall j, k | 0 <= j < k < |c.items| :: !DoubleBooked(c.live, c.items[j], c.items[k])
  }

  predicate AllAllowed(c: Calendar, moves: seq<Move>, known: set<Id>)
    decreases |moves|
  {
    moves == [] || (Allowed(c, moves[0], known) && AllAllowed(Apply(c, moves[0]), moves[1..], Known(known, moves[0])))
  }

  function Run(c: Calendar, moves: seq<Move>): Calendar
    decreases |moves|
  {
    if moves == [] then c else Run(Apply(c, moves[0]), moves[1..])
  }

  function KnownAfter(known: set<Id>, moves: seq<Move>): set<Id>
    decreases |moves|
  {
    if moves == [] then known else KnownAfter(Known(known, moves[0]), moves[1..])
  }

  lemma MoveKeepsSound(c: Calendar, m: Move, known: set<Id>)
    requires Sound(c, known) && Allowed(c, m, known)
    ensures Sound(Apply(c, m), Known(known, m))
  {
    var next := Apply(c, m);
    forall j, k | 0 <= j < k < |next.items|
      ensures next.items[j].id != next.items[k].id && !DoubleBooked(next.live, next.items[j], next.items[k])
    {
      match m {
        case Insert(item) =>
          SameScopeIsMutual(next.items[j].slot, next.items[k].slot);
        case Reschedule(i, slot) =>
          SameScopeIsMutual(next.items[j].slot, next.items[k].slot);
          assert c.items[j].id != c.items[k].id && !DoubleBooked(c.live, c.items[j], c.items[k]);
        case SetStatus(i, status) =>
          assert c.items[j].id != c.items[k].id && !DoubleBooked(c.live, c.items[j], c.items[k]);
        case Remove(i) =>
          var j', k' := if j < i then j else j + 1, if k < i then k else k + 1;
          assert next.items[j] == c.items[j'] && next.items[k] == c.items[k'];
          assert c.items[j'].id != c.items[k'].id && !DoubleBooked(c.live, c.items[j'], c.items[k']);
        case EventCreated(e) =>
          assert !DoubleBooked(c.live, c.items[j], c.items[k]);
        case EventDeleted(e) =>
          assert !DoubleBooked(c.live, c.items[j], c.items[k]);
      }
    }
  }

  /** Over every run of bookings, changes, cancellations, deletions and event deletions nothing is double-booked. */
  lemma {:induction false} RunKeepsSound(c: Calendar, moves: seq<Move>, known: set<Id>)
    requires Sound(c, known) && AllAllowed(c, moves, known)
    ensures Sound(Run(c, moves), KnownAfter(known, moves))
    decreases |moves|
  {
    if moves != [] {
      MoveKeepsSound(c, moves[0], known);
      RunKeepsSound(Apply(c, moves[0]), moves[1..], Known(known, moves[0]));
    }
  }

  /* ---- What the service accepts ---- */

  datatype Patch = Patch(venue: Field<Option<Id>>, title: Field<string>, start: Field<Option<int>>, end: Field<Option<int>>,
                         resource: Field<Option<string>>, expected: Field<Option<int>>)

  function Merge(slot: Slot, p: Patch): Slot {
    Slot(Patched(slot.venue, p.venue), Patched(slot.title, p.title), Patched(slot.start, p.start), Patched(slot.end, p.end),
         Patched(slot.resource, p.resource), Patched(slot.expected, p.expected))
  }

  predicate TimesOrdered(slot: Slot) {
    slot.start.Some? && slot.end.Some? && slot.start.value < slot.end.value
  }

  predicate WithinEvent(event: Event, slot: Slot)
    requires TimesOrdered(slot)
  {
    event.start <= slot.start.value && slot.end.value <= event.end
  }

  predicate GoodWindow(w: Window) {
    w.Window? && w.start < w.end
  }

  predicate Covers(w: Window, slot: Slot)
    requires TimesOrdered(slot)
  {
    w.Window? && w.start <= slot.start.value && slot.end.value <= w.end
  }

  predicate OpenDuring(windows: seq<Window>, slot: Slot)
    requires TimesOrdered(slot)
  {
    && (forall k | 0 <= k < |windows| :: GoodWindow(windows[k]))
    && (windows == [] || exists k | 0 <= k < |windows| :: Covers(windows[k], slot))
  }

  predicate VenueKnown(venues: map<Id, Venue>, event: Id, venue: Id) {
    venue in venues && (venues[venue].event == event || venues[venue].shared)
  }

  predicate TooSmall(v: Venue, slot: Slot) {
    v.capacity.Some? && slot.expected.Some? && slot.expected.value > v.capacity.value
  }

  /** The venue is usable by the event, large enough, and open during the slot (no windows: always open). */
  predicate VenueFits(venues: map<Id, Venue>, event: Id, slot: Slot)
    requires TimesOrdered(slot)
  {
    slot.venue.Some? ==>
      slot.venue.value in venues &&
      var v := venues[slot.venue.value];
      VenueKnown(venues, event, slot.venue.value) && !TooSmall(v, slot) && OpenDuring(v.availability, slot)
  }

  predicate Bookable(event: Event, venues: map<Id, Venue>, id: Id, slot: Slot) {
    TimesOrdered(slot) && WithinEvent(event, slot) && VenueFits(venues, id, slot)
  }

  /* ---- Exactly which overlaps are prevented ---- */

  predicate Active(c: Calendar, slot: Slot) {
    exists k | 0 <= k < |c.items| :: c.items[k].slot == slot && c.items[k].status != Cancelled && c.items[k].event in c.live
  }

  /** The run creates valid events and books slots that pass every check of the service. */
  predicate OnlyBookings(events: map<Id, Event>, venues: map<Id, Venue>, moves: seq<Move>) {
    forall m | m in moves ::
      match m
      case EventCreated(e) => e in events && events[e].start < events[e].end
      case Insert(item) => item.event in events && Bookable(events[item.event], venues, item.event, item.slot)
      case _ => false
  }

  ghost predicate BooksBoth(events: map<Id, Event>, venues: map<Id, Venue>, moves: seq<Move>, a: Slot, b: Slot) {
    && OnlyBookings(events, venues, moves) && AllAllowed(Calendar({}, []), moves, {})
    && Active(Run(Calendar({}, []), moves), a) && Active(Run(Calendar({}, []), moves), b)
  }

  /** For some events and venues, some bookings from an empty calendar put both slots into it. */
  ghost predicate BothBookable(a: Slot, b: Slot) {
    exists events, venues, moves :: BooksBoth(events, venues, moves, a, b)
  }

  lemma BookableSomewhere(a: Slot, b: Slot) returns (events: map<Id, Event>, venues: map<Id, Venue>)
    requires TimesOrdered(a) && TimesOrdered(b)
    ensures 0 in events && events[0].start < events[0].end
    ensures Bookable(events[0], venues, 0, a) && Bookable(events[0], venues, 0, b)
  {
    var start := if a.start.value < b.start.value then a.start.value else b.start.value;
    var end := if a.end.value > b.end.value then a.end.value else b.end.value;
    events := map[0 := Event(start, end, false)];
    var hall := Venue(0, false, None, [], "");
    venues := map[];
    if a.venue.Some? {
      venues := venues[a.venue.value := hall];
    }
    if b.venue.Some? {
      venues := venues[b.venue.value := hall];
    }
  }

  lemma BookInOrder(first: Slot, second: Slot)
    requires TimesOrdered(first) && TimesOrdered(second) && !InScope(second, first)
    ensures BothBookable(first, second) && BothBookable(second, first)
  {
    var events, venues := BookableSomewhere(first, second);
    var empty := Calendar({}, []);
    var one, two := Item(1, 0, first, Scheduled), Item(2, 0, second, Scheduled);
    var moves := [EventCreated(0), Insert(one), Insert(two)];
    var c1 := Calendar({0}, []);
    var c2 := Calendar({0}, [one]);
    var c3 := Calendar({0}, [one, two]);
    assert moves[1..] == [Insert(one), Insert(two)] && moves[1..][1..] == [Insert(two)] && moves[1..][1..][1..] == [];
    assert Apply(empty, moves[0]) == c1 && Apply(c1, Insert(one)) == c2 && Apply(c2, Insert(two)) == c3;
    assert Known({}, moves[0]) == {0};
    assert AllAllowed(c3, [], {0}) && AllAllowed(c2, [Insert(two)], {0}) && AllAllowed(c1, moves[1..], {0});
    assert AllAllowed(empty, moves, {});
    assert Run(c3, []) == c3 && Run(c2, [Insert(two)]) == c3 && Run(c1, moves[1..]) == c3 && Run(empty, moves) == c3;
    assert c3.items[0].slot == first && c3.items[1].slot == second;
    assert Active(c3, first) && Active(c3, second);
    assert BooksBoth(events, venues, moves, first, second) && BooksBoth(events, venues, moves, second, first);
  }

  lemma {:induction false} BookedTimesOrdered(events: map<Id, Event>, venues: map<Id, Venue>, c: Calendar, moves: seq<Move>)
    requires OnlyBookings(events, venues, moves) && forall item | item in c.items :: TimesOrdered(item.slot)
    ensures forall item | item in Run(c, moves).items :: TimesOrdered(item.slot)
    decreases |moves|
  {
    if moves != [] {
      assert moves[0] in moves && forall m | m in moves[1..] :: m in moves;
      BookedTimesOrdered(events, venues, Apply(c, moves[0]), moves[1..]);
    }
  }

  lemma NotBothActive(c: Calendar, known: set<Id>, a: Slot, b: Slot)
    requires Sound(c, known) && Overlap(a, b) && SameScope(a, b) && a != b
    ensures Active(c, a) ==> !Active(c, b)
  {}

  /** Two distinct overlapping slots in one scope are never both in the calendar, whatever moves are made. */
  lemma SameScopePrevents(moves: seq<Move>, a: Slot, b: Slot)
    requires Overlap(a, b) && a != b && SameScope(a, b) && AllAllowed(Calendar({}, []), moves, {})
    ensures !(Active(Run(Calendar({}, []), moves), a) && Active(Run(Calendar({}, []), moves), b))
  {
    RunKeepsSound(Calendar({}, []), moves, {});
    NotBothActive(Run(Calendar({}, []), moves), KnownAfter({}, moves), a, b);
  }

  lemma BothBookableMeans(events: map<Id, Event>, venues: map<Id, Venue>, moves: seq<Move>, a: Slot, b: Slot)
    requires Overlap(a, b) && a != b && BooksBoth(events, venues, moves, a, b)
    ensures TimesOrdered(a) && TimesOrdered(b) && !SameScope(a, b)
  {
    BookedTimesOrdered(events, venues, Calendar({}, []), moves);
    if SameScope(a, b) {
      SameScopePrevents(moves, a, b);
    }
  }

  /** Two distinct overlapping slots can both be booked exactly when their times are in order and they are not in the
      same scope: a venue shared under different resource keys, or a resource shared between venues, can be
      double-booked. */
  lemma PreventedIffSameScope(a: Slot, b: Slot)
    requires Overlap(a, b) && a != b
    ensures BothBookable(a, b) <==> TimesOrdered(a) && TimesOrdered(b) && !SameScope(a, b)
  {
    if BothBookable(a, b) {
      var events, venues, moves :| BooksBoth(events, venues, moves, a, b);
      BothBookableMeans(events, venues, moves, a, b);
    }
    if TimesOrdered(a) && TimesOrdered(b) && !SameScope(a, b) {
      SameScopeIsMutual(a, b);
      if !InScope(b, a) {
        BookInOrder(a, b);
      } else {
        BookInOrder(b, a);
      }
    }
  }

  /* ---- Bookings by instants ---- */

  /** The slot takes place at the instant: from its start on, and before its end. */
  predicate At(slot: Slot, t: int) {
    slot.start.Some? && slot.end.Some? && slot.start.value <= t < slot.end.value
  }

  /** No two active items of live events at one venue under one resource, or without any resource, take place at one instant;
      nor do two without a venue under one resource. */
  ghost predicate NeverTwoAtOnce(live: set<Id>, a: Item, b: Item) {
    && a.status != Cancelled && b.status != Cancelled && a.event in live && b.event in live && a.slot.venue == b.slot.venue
    && (if a.slot.resource in {None, Some("")} then a.slot.venue.Some? && b.slot.resource in {None, Some("")}
        else b.slot.resource == a.slot.resource)
    ==> forall t :: !(At(a.slot, t) && At(b.slot, t))
  }

  lemma NotDoubleBookedMeans(live: set<Id>, a: Item, b: Item)
    requires !DoubleBooked(live, a, b)
    ensures NeverTwoAtOnce(live, a, b)
  {}

  /** After every run of bookings, changes, cancellations, deletions and event deletions. */
  lemma RunNeverTwoAtOnce(moves: seq<Move>, j: nat, k: nat)
    requires AllAllowed(Calendar({}, []), moves, {}) && j < |Run(Calendar({}, []), moves).items|
    requires k < |Run(Calendar({}, []), moves).items| && j != k
    ensures var c := Run(Calendar({}, []), moves); NeverTwoAtOnce(c.live, c.items[j], c.items[k])
  {
    var c := Run(Calendar({}, []), moves);
    RunKeepsSound(Calendar({}, []), moves, {});
    SameScopeIsMutual(c.items[j].slot, c.items[k].slot);
    assert j < k ==> !DoubleBooked(c.live, c.items[j], c.items[k]);
    assert k < j ==> !DoubleBooked(c.live, c.items[k], c.items[j]);
  }

  /** The active item is at the venue asked for, if any, under the resource asked for, if any, and at the instant. */
  predicate Takes(c: Calendar, item: Item, slot: Slot, t: int) {
    && item.status != Cancelled && item.event in c.live && At(item.slot, t)
    && (slot.venue.Some? ==> item.slot.venue == slot.venue)
    && (slot.resource.Some? && slot.resource.value != "" ==> item.slot.resource == slot.resource)
    && (slot.venue.Some? || (slot.resource.Some? && slot.resource.value != ""))
  }

  predicate AllOrdered(items: seq<Item>) {
    forall k | 0 <= k < |items| :: TimesOrdered(items[k].slot)
  }

  /** No other item takes place in the slot's scopes at any of its instants. */
  ghost predicate NothingAt(c: Calendar, slot: Slot, exclude: Option<Id>) {
    forall k, t | 0 <= k < |c.items| && Some(c.items[k].id) != exclude && At(slot, t) :: !Takes(c, c.items[k], slot, t)
  }

  lemma FreeByInstants(c: Calendar, slot: Slot, exclude: Option<Id>)
    requires TimesOrdered(slot) && AllOrdered(c.items)
    ensures Free(c, slot, exclude) <==> NothingAt(c, slot, exclude)
  {
    if NothingAt(c, slot, exclude) {
      forall k | 0 <= k < |c.items| ensures !Conflicts(c.live, slot, exclude, c.items[k]) {
        var item := c.items[k].slot;
        var t := if item.start.value < slot.start.value then slot.start.value else item.start.value;
        assert Conflicts(c.live, slot, exclude, c.items[k]) ==> At(slot, t) && Takes(c, c.items[k], slot, t);
      }
    }
    if Free(c, slot, exclude) {
      forall k, t | 0 <= k < |c.items| && Some(c.items[k].id) != exclude && At(slot, t)
        ensures !Takes(c, c.items[k], slot, t)
      {
        assert !Conflicts(c.live, slot, exclude, c.items[k]);
      }
    }
  }

  /** A slot that begins where others end, or ends where they begin, is free next to them. */
  lemma TouchingIsFree(c: Calendar, slot: Slot, exclude: Option<Id>)
    requires slot.start.Some? && slot.end.Some?
    requires forall k | 0 <= k < |c.items| :: c.items[k].slot.start.Some? && c.items[k].slot.end.Some?
    requires forall k | 0 <= k < |c.items| ::
      c.items[k].slot.end.value <= slot.start.value || slot.end.value <= c.items[k].slot.start.value
    ensures Free(c, slot, exclude)
  {}

  /* ---- The service ---- */

  class ScheduleService {
    var events: map<Id, Event>
    var venues: map<Id, Venue>
    var items: seq<Item>

    constructor ()
      ensures Valid() && events == map[] && venues == map[] && items == []
    {
      events, venues, items := map[], map[], [];
    }

    function Live(): set<Id>
      reads this
    {
      set e | e in events && !events[e].deleted
    }

    function View(): Calendar
      reads this
    {
      Calendar(Live(), items)
    }

    ghost predicate Valid()
      reads this
    {
      Sound(View(), events.Keys) && AllOrdered(items)
    }

    predicate FreshItem(id: Id)
      reads this
    {
      forall k | 0 <= k < |items| :: items[k].id != id
    }

    /** Parses the availability windows and looks for one that covers the slot. */
    method CheckAvailability(windows: seq<Window>, slot: Slot) returns (r: Outcome)
      requires TimesOrdered(slot)
      ensures r == Done <==> OpenDuring(windows, slot)
      ensures r == Refused(BadAvailability) <==> exists k | 0 <= k < |windows| :: !GoodWindow(windows[k])
      ensures r.Refused? ==> r.reason in {BadAvailability, VenueClosed}
    {
      var open := windows == [];
      for k := 0 to |windows|
        invariant forall j | 0 <= j < k :: GoodWindow(windows[j])
        invariant open <==> windows == [] || exists j | 0 <= j < k :: Covers(windows[j], slot)
      {
        if !GoodWindow(windows[k]) {
          return Refused(BadAvailability);
        }
        if Covers(windows[k], slot) {
          open := true;
        }
      }
      r := if open then Done else Refused(VenueClosed);
    }

    /** Items of live events that overlap the request in every scope it names. */
    method FindOverlapping(slot: Slot, exclude: Option<Id>) returns (found: seq<Item>)
      ensures found == [] <==> Free(View(), slot, exclude)
      ensures forall item | item in found :: item in items && Conflicts(Live(), slot, exclude, item)
    {
      found := [];
      if slot.venue.None? && !HasKey(slot) {
        return;
      }
      for k := 0 to |items|
        invariant found == [] <==> forall j | 0 <= j < k :: !Conflicts(Live(), slot, exclude, items[j])
        invariant forall item | item in found :: item in items && Conflicts(Live(), slot, exclude, item)
      {
        if Conflicts(Live(), slot, exclude, items[k]) {
          found := found + [items[k]];
        }
      }
    }

    method ValidateSchedule(event: Event, id: Id, slot: Slot, exclude: Option<Id>) returns (r: Outcome)
      ensures r == Done <==> Bookable(event, venues, id, slot) && Free(View(), slot, exclude)
      ensures r == Refused(Overlapping) <==> Bookable(event, venues, id, slot) && !Free(View(), slot, exclude)
      ensures r == Refused(BadRange) <==> !TimesOrdered(slot)
      ensures r == Refused(OutsideEvent) <==> TimesOrdered(slot) && !WithinEvent(event, slot)
      ensures r.Refused? && r.reason in {VenueMissing, OverCapacity, BadAvailability, VenueClosed} <==>
              TimesOrdered(slot) && WithinEvent(event, slot) && !VenueFits(venues, id, slot)
      ensures r.Refused? && TimesOrdered(slot) && WithinEvent(event, slot) && slot.venue.Some? ==>
              (r.reason == VenueMissing <==> !VenueKnown(venues, id, slot.venue.value))
      ensures r.Refused? && TimesOrdered(slot) && WithinEvent(event, slot) && slot.venue.Some? && VenueKnown(venues, id, slot.venue.value) ==>
              var v := venues[slot.venue.value];
              && (r.reason == OverCapacity <==> TooSmall(v, slot))
              && (r.reason == BadAvailability <==> !TooSmall(v, slot) && exists k | 0 <= k < |v.availability| :: !GoodWindow(v.availability[k]))
    {
      if slot.start.None? || slot.end.None? || slot.end.value <= slot.start.value {
        return Refused(BadRange);
      }
      if slot.start.value < event.start || slot.end.value > event.end {
        return Refused(OutsideEvent);
      }
      if slot.venue.Some? {
        if slot.venue.value !in venues {
          return Refused(VenueMissing);
        }
        var v := venues[slot.venue.value];
        if v.event != id && !v.shared {
          return Refused(VenueMissing);
        }
        if v.capacity.Some? && slot.expected.Some? && slot.expected.value > v.capacity.value {
          return Refused(OverCapacity);
        }
        var open := CheckAvailability(v.availability, slot);
        if open.Refused? {
          return open;
        }
      }
      var found := FindOverlapping(slot, exclude);
      r := if found == [] then Done else Refused(Overlapping);
    }

    /** Books a new item; the id is fresh. */
    method AddScheduleItem(event: Id, slot: Slot, newId: Id) returns (r: Outcome)
      requires Valid() && FreshItem(newId)
      modifies this`items
      ensures Valid()
      ensures r == Done <==> event in Live() && Bookable(events[event], venues, event, slot) && Free(old(View()), slot, None)
      ensures r == Done <==> event in Live() && Bookable(events[event], venues, event, slot) && NothingAt(old(View()), slot, None)
      ensures r == Done ==> Allowed(old(View()), Insert(Item(newId, event, slot, Scheduled)), events.Keys)
      ensures r == Done ==> items == old(items) + [Item(newId, event, slot, Scheduled)]
      ensures r != Done ==> items == old(items)
    {
      if event !in events || events[event].deleted {
        return Refused(EventMissing);
      }
      r := ValidateSchedule(events[event], event, slot, None);
      if TimesOrdered(slot) {
        FreeByInstants(View(), slot, None);
      }
      if r == Done {
        MoveKeepsSound(View(), Insert(Item(newId, event, slot, Scheduled)), events.Keys);
        items := items + [Item(newId, event, slot, Scheduled)];
      }
    }

    /** Scheduling a competition match books its venue without a resource key or an attendance. */
    method CreateFixture(event: Id, venue: Option<Id>, title: string, start: int, end: int, newId: Id) returns (r: Outcome)
      requires Valid() && FreshItem(newId)
      modifies this`items
      ensures Valid()
      ensures var slot := Slot(venue, title, Some(start), Some(end), None, None);
        r == Done <==> event in Live() && Bookable(events[event], venues, event, slot) && Free(old(View()), slot, None)
      ensures r == Done ==> items == old(items) + [Item(newId, event, Slot(venue, title, Some(start), Some(end), None, None), Scheduled)]
      ensures r == Done && venue.Some? ==> forall k | 0 <= k < |old(items)| ::
                old(items)[k].status == Cancelled || old(items)[k].event !in Live() || old(items)[k].slot.venue != venue
                || !Overlap(old(items)[k].slot, Slot(venue, title, Some(start), Some(end), None, None))
      ensures r != Done ==> items == old(items)
    {
      ghost var before := View();
      r := AddScheduleItem(event, Slot(venue, title, Some(start), Some(end), None, None), newId);
      assert r == Done ==> forall k | 0 <= k < |before.items| ::
        !Conflicts(before.live, Slot(venue, title, Some(start), Some(end), None, None), None, before.items[k]);
    }

    method FindItem(event: Id, item: Id) returns (index: Option<nat>)
      requires Valid()
      ensures index.Some? ==> index.value < |items| && items[index.value].id == item && items[index.value].event == event
      ensures forall k | 0 <= k < |items| && items[k].id == item && items[k].event == event :: index == Some(k)
    {
      for k := 0 to |items|
        invariant forall j | 0 <= j < k :: items[j].id != item || items[j].event != event
      {
        if items[k].id == item && items[k].event == event {
          return Some(k);
        }
      }
      index := None;
    }

    /** Reschedules an item that is not cancelled; fields that are not given stay. */
    method UpdateScheduleItem(event: Id, item: Id, patch: Patch) returns (r: Outcome)
      requires Valid()
      modifies this`items
      ensures Valid()
      ensures r == Done <==> event in Live() && exists k | 0 <= k < |old(items)| ::
                && old(items)[k].id == item && old(items)[k].event == event && old(items)[k].status != Cancelled
                && Bookable(events[event], venues, event, Merge(old(items)[k].slot, patch))
                && Free(old(View()), Merge(old(items)[k].slot, patch), Some(item))
      ensures r == Done ==> exists k | 0 <= k < |old(items)| ::
                && old(items)[k].id == item && old(items)[k].event == event
                && Allowed(old(View()), Reschedule(k, Merge(old(items)[k].slot, patch)), events.Keys)
                && View() == Apply(old(View()), Reschedule(k, Merge(old(items)[k].slot, patch)))
      ensures r != Done ==> items == old(items)
    {
      if event !in events || events[event].deleted {
        return Refused(EventMissing);
      }
      var index := FindItem(event, item);
      if index.None? {
        return Refused(ItemMissing);
      }
      var k := index.value;
      if items[k].status == Cancelled {
        return Refused(ItemCancelled);
      }
      var slot := Merge(items[k].slot, patch);
      r := ValidateSchedule(events[event], event, slot, Some(item));
      if r == Done {
        MoveKeepsSound(View(), Reschedule(k, slot), events.Keys);
        items := items[k := items[k].(slot := slot)];
      }
    }

    method CancelScheduleItem(event: Id, item: Id) returns (r: Outcome)
      requires Valid()
      modifies this`items
      ensures Valid()
      ensures r == Done <==> event in Live() && exists k | 0 <= k < |old(items)| ::
                old(items)[k].id == item && old(items)[k].event == event
      ensures r == Done ==> exists k | 0 <= k < |old(items)| ::
                && old(items)[k].id == item && old(items)[k].event == event
                && View() == Apply(old(View()), SetStatus(k, Cancelled))
      ensures r != Done ==> items == old(items)
    {
      if event !in events || events[event].deleted {
        return Refused(EventMissing);
      }
      var index := FindItem(event, item);
      if index.None? {
        return Refused(ItemMissing);
      }
      MoveKeepsSound(View(), SetStatus(index.value, Cancelled), events.Keys);
      items := items[index.value := items[index.value].(status := Cancelled)];
      r := Done;
    }

    /** Only cancelled items can be deleted. */
    method DeleteScheduleItem(event: Id, item: Id) returns (r: Outcome)
      requires Valid()
      modifies this`items
      ensures Valid()
      ensures r == Done <==> event in Live() && exists k | 0 <= k < |old(items)| ::
                old(items)[k].id == item && old(items)[k].event == event && old(items)[k].status == Cancelled
      ensures r == Done ==> exists k | 0 <= k < |old(items)| ::
                && old(items)[k].id == item && old(items)[k].event == event && old(items)[k].status == Cancelled
                && View() == Apply(old(View()), Remove(k))
      ensures r != Done ==> items == old(items)
    {
      if event !in events || events[event].deleted {
        return Refused(EventMissing);
      }
      var index := FindItem(event, item);
      if index.None? {
        return Refused(ItemMissing);
      }
      if items[index.value].status != Cancelled {
        return Refused(NotCancelled);
      }
      MoveKeepsSound(View(), Remove(index.value), events.Keys);
      items := items[..index.value] + items[index.value + 1..];
      r := Done;
    }

    method AddVenue(event: Id, newId: Id, shared: bool, capacity: Option<int>, availability: seq<Window>, description: string)
        returns (r: Outcome)
      requires Valid() && newId !in venues
      modifies this`venues
      ensures Valid() && (r == Done <==> event in Live())
      ensures venues == if r == Done then old(venues)[newId := Venue(event, shared, capacity, availability, description)] else old(venues)
    {
      if event !in events || events[event].deleted {
        return Refused(EventMissing);
      }
      venues := venues[newId := Venue(event, shared, capacity, availability, description)];
      r := Done;
    }

    method CreateEvent(id: Id, start: int, end: int) returns (r: Outcome)
      requires Valid() && id !in events
      modifies this`events
      ensures Valid() && (r == Done <==> start < end)
      ensures events == if r == Done then old(events)[id := Event(start, end, false)] else old(events)
      ensures r == Done ==> View() == Apply(old(View()), EventCreated(id))
    {
      if end <= start {
        return Refused(BadRange);
      }
      MoveKeepsSound(View(), EventCreated(id), events.Keys);
      ghost var before := Live();
      events := events[id := Event(start, end, false)];
      assert Live() == before + {id};
      r := Done;
    }

    method DeleteEvent(id: Id) returns (r: Outcome)
      requires Valid()
      modifies this`events
      ensures Valid() && (r == Done <==> id in old(Live()))
      ensures r == Done ==> View() == Apply(old(View()), EventDeleted(id)) && events == old(events)[id := old(events)[id].(deleted := true)]
      ensures r != Done ==> events == old(events)
    {
      if id !in events || events[id].deleted {
        return Refused(EventMissing);
      }
      MoveKeepsSound(View(), EventDeleted(id), events.Keys);
      ghost var before := Live();
      events := events[id := events[id].(deleted := true)];
      assert Live() == before - {id};
      r := Done;
    }
  }
}
