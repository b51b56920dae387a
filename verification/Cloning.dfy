/** Duplicating an event: a snapshot of its configuration, copied under new ids and moved in time. */
module Cloning {
  import opened Common
  import opened Scheduling

  /** A JSON value of the configuration details: nothing, a point in time, or anything else. */
  datatype Detail = Empty | Instant(at: int) | Other(json: string)
  datatype Config = Config(settings: string, details: map<string, Detail>)
  datatype Zone = Zone(event: Id, code: string, name: string, active: bool)
  datatype Policy = Policy(allowed: seq<Id>, reentry: bool, maxEntries: int, from: Option<int>, until: Option<int>,
                           validDates: Option<string>)

  datatype VenueCopy = VenueCopy(shared: bool, capacity: Option<int>, availability: seq<Window>, description: string)
  datatype ZoneCopy = ZoneCopy(code: string, name: string, active: bool)
  datatype PolicyCopy = PolicyCopy(allowed: seq<Id>, reentry: bool, maxEntries: int, from: Option<int>, until: Option<int>)

  /** Lists whose entries carry a unique key (venue and zone ids, participation and access types) are maps; the
      scheduled items are a multiset, so that everything below holds for every order of the lists. */
  datatype Snapshot = Snapshot(sourceStart: int, config: Option<Config>, schemas: map<string, string>,
                               venues: map<Id, VenueCopy>, schedules: multiset<Slot>,
                               zones: map<Id, ZoneCopy>, policies: map<string, PolicyCopy>)

  datatype Store = Store(events: map<Id, Event>, venues: map<Id, Venue>, items: seq<Item>, configs: map<Id, Config>,
                         schemas: map<Id, map<string, string>>, zones: map<Id, Zone>, policies: map<Id, map<string, Policy>>)

  /* ---- Snapshots ---- */

  function SlotsOf(items: seq<Item>, event: Id): multiset<Slot> {
    if items == [] then multiset{}
    else
      var last := items[|items| - 1];
      SlotsOf(items[..|items| - 1], event)
      + (if last.event == event && last.status == Scheduled then multiset{last.slot} else multiset{})
  }

  function CopyVenue(v: Venue): VenueCopy {
    VenueCopy(v.shared, v.capacity, v.availability, v.description)
  }

  function CopyPolicy(p: Policy): PolicyCopy {
    PolicyCopy(p.allowed, p.reentry, p.maxEntries, p.from, p.until)
  }

  function ConfigOf(configs: map<Id, Config>, e: Id): Option<Config> {
    if e in configs then Some(configs[e]) else None
  }

  /** Field schemas and policies are unique per event and type: one table per event. */
  function TableOf<T>(tables: map<Id, map<string, T>>, e: Id): map<string, T> {
    if e in tables then tables[e] else map[]
  }

  function VenuesOf(venues: map<Id, Venue>, e: Id): map<Id, VenueCopy> {
    map v | v in venues && venues[v].event == e :: CopyVenue(venues[v])
  }

  function ZonesOf(zones: map<Id, Zone>, e: Id): map<Id, ZoneCopy> {
    map z | z in zones && zones[z].event == e :: ZoneCopy(zones[z].code, zones[z].name, zones[z].active)
  }

  function PoliciesOf(policies: map<Id, map<string, Policy>>, e: Id): map<string, PolicyCopy> {
    map k | k in TableOf(policies, e) :: CopyPolicy(TableOf(policies, e)[k])
  }

  function SnapshotOf(s: Store, e: Id): Snapshot
    requires e in s.events
  {
    Snapshot(s.events[e].start, ConfigOf(s.configs, e), TableOf(s.schemas, e), VenuesOf(s.venues, e),
             SlotsOf(s.items, e), ZonesOf(s.zones, e), PoliciesOf(s.policies, e))
  }

  lemma {:induction false} SlotsOfConcat(some: seq<Item>, others: seq<Item>, event: Id)
    ensures SlotsOf(some + others, event) == SlotsOf(some, event) + SlotsOf(others, event)
  {
    if others == [] {
      assert some + others == some;
    } else {
      var init := others[..|others| - 1];
      assert (some + others)[..|some + others| - 1] == some + init;
      SlotsOfConcat(some, init, event);
    }
  }

  /* ---- Moving in time and renaming ---- */

  const DATE_KEYS: set<string> := {"registration_end_at", "cancellation_deadline_at"}

  /** Empty deadlines are skipped; deadlines that are not dates make the copy fail. */
  predicate Shiftable(details: map<string, Detail>) {
    forall k | k in DATE_KEYS && k in details :: !details[k].Other?
  }

  function ShiftDetails(details: map<string, Detail>, delta: int): map<string, Detail> {
    map k | k in details :: if k in DATE_KEYS && details[k].Instant? then Instant(details[k].at + delta) else details[k]
  }

  function ShiftTime(t: Option<int>, delta: int): Option<int> {
    if t.Some? then Some(t.value + delta) else None
  }

  function ShiftConfig(c: Option<Config>, delta: int): Option<Config> {
    if c.Some? then Some(c.value.(details := ShiftDetails(c.value.details, delta))) else None
  }

  function Renamed(names: map<Id, Id>, id: Option<Id>): Option<Id> {
    if id.Some? && id.value in names then Some(names[id.value]) else id
  }

  function MoveSlot(venues: map<Id, Id>, delta: int, slot: Slot): Slot {
    slot.(venue := Renamed(venues, slot.venue), start := ShiftTime(slot.start, delta), end := ShiftTime(slot.end, delta))
  }

  function RenameAll(names: map<Id, Id>, ids: seq<Id>): seq<Id> {
    seq(|ids|, k requires 0 <= k < |ids| => if ids[k] in names then names[ids[k]] else ids[k])
  }

  function MovePolicy(zones: map<Id, Id>, delta: int, p: PolicyCopy): PolicyCopy {
    p.(allowed := RenameAll(zones, p.allowed), from := ShiftTime(p.from, delta), until := ShiftTime(p.until, delta))
  }

  predicate Injective(m: map<Id, Id>) {
    forall a, b | a in m && b in m && m[a] == m[b] :: a == b
  }

  ghost predicate Hit<T(!new), U>(f: T -> U, m: multiset<T>, y: U) {
    exists x :: x in m && f(x) == y
  }

  /** n is m with every element replaced by its image, for an f that is injective on m. */
  ghost predicate ImageOf<T(!new), U(!new)>(f: T -> U, m: multiset<T>, n: multiset<U>) {
    && (forall x | x in m :: n[f(x)] == m[x])
    && (forall y {:trigger Hit(f, m, y)} | y in n :: Hit(f, m, y))
  }

  function Mover(venues: map<Id, Id>, delta: int): Slot -> Slot {
    (slot: Slot) => MoveSlot(venues, delta, slot)
  }

  /** The renaming is one-to-one between the two key sets and preserves the values. */
  ghost predicate SameUnder<T>(m: map<Id, T>, n: map<Id, T>, names: map<Id, Id>) {
    && Injective(names) && names.Keys == m.Keys && names.Values == n.Keys
    && forall a | a in m :: n[names[a]] == m[a]
  }

  ghost predicate SamePolicies(s: map<string, PolicyCopy>, t: map<string, PolicyCopy>, zones: map<Id, Id>, delta: int) {
    t.Keys == s.Keys && forall k | k in s :: t[k] == MovePolicy(zones, delta, s[k])
  }

  /** t is s under new venue and zone ids, with every date moved by delta. */
  ghost predicate ShiftedCopy(s: Snapshot, t: Snapshot, venues: map<Id, Id>, zones: map<Id, Id>, delta: int) {
    && t.sourceStart == s.sourceStart + delta
    && t.config == ShiftConfig(s.config, delta)
    && t.schemas == s.schemas
    && SameUnder(s.venues, t.venues, venues)
    && SameUnder(s.zones, t.zones, zones)
    && ImageOf(Mover(venues, delta), s.schedules, t.schedules)
    && SamePolicies(s.policies, t.policies, zones, delta)
  }

  /** No shared venue, no item at another event's venue, no policy naming another event's zone. */
  predicate OwnOnly(s: Snapshot) {
    && (forall v | v in s.venues :: !s.venues[v].shared)
    && (forall slot | slot in s.schedules && slot.venue.Some? :: slot.venue.value in s.venues)
    && (forall k, i | k in s.policies && 0 <= i < |s.policies[k].allowed| :: s.policies[k].allowed[i] in s.zones)
  }

  /* ---- Copies of copies ---- */

  function Compose(m: map<Id, Id>, n: map<Id, Id>): map<Id, Id> {
    map a | a in m && m[a] in n :: n[m[a]]
  }

  lemma ImageCompose<T(!new), U(!new), V(!new)>(f: T -> U, g: U -> V, h: T -> V, m: multiset<T>, n: multiset<U>, k: multiset<V>)
    requires ImageOf(f, m, n) && ImageOf(g, n, k)
    requires forall x | x in m :: h(x) == g(f(x))
    ensures ImageOf(h, m, k)
  {
    forall x | x in m ensures k[h(x)] == m[x] {
      assert n[f(x)] == m[x] && f(x) in n;
    }
    forall z | z in k ensures Hit(h, m, z) {
      assert Hit(g, n, z);
      var y :| y in n && g(y) == z;
      assert Hit(f, m, y);
      var x :| x in m && f(x) == y;
      assert h(x) == z;
    }
  }

  lemma SameUnderTwice<T>(m: map<Id, T>, n: map<Id, T>, k: map<Id, T>, names1: map<Id, Id>, names2: map<Id, Id>)
    requires SameUnder(m, n, names1) && SameUnder(n, k, names2)
    ensures SameUnder(m, k, Compose(names1, names2))
  {}

  lemma ShiftConfigTwice(c: Option<Config>, d1: int, d2: int)
    ensures ShiftConfig(ShiftConfig(c, d1), d2) == ShiftConfig(c, d1 + d2)
    ensures ShiftConfig(c, 0) == c
  {
    if c.Some? {
      var details := c.value.details;
      assert ShiftDetails(ShiftDetails(details, d1), d2) == ShiftDetails(details, d1 + d2);
      assert ShiftDetails(details, 0) == details;
    }
  }

  lemma MoveSlotTwice(v1: map<Id, Id>, d1: int, v2: map<Id, Id>, d2: int, slot: Slot)
    requires v1.Values == v2.Keys
    requires slot.venue.Some? ==> slot.venue.value in v1
    ensures MoveSlot(v2, d2, MoveSlot(v1, d1, slot)) == MoveSlot(Compose(v1, v2), d1 + d2, slot)
  {}

  lemma MovePolicyTwice(z1: map<Id, Id>, d1: int, z2: map<Id, Id>, d2: int, p: PolicyCopy)
    requires z1.Values == z2.Keys
    requires forall i | 0 <= i < |p.allowed| :: p.allowed[i] in z1
    ensures MovePolicy(z2, d2, MovePolicy(z1, d1, p)) == MovePolicy(Compose(z1, z2), d1 + d2, p)
  {}

  /** Copying a copy is copying once, moved by the sum of the two differences. */
  lemma CopyOfCopy(s: Snapshot, t: Snapshot, u: Snapshot,
                   v1: map<Id, Id>, z1: map<Id, Id>, d1: int, v2: map<Id, Id>, z2: map<Id, Id>, d2: int)
    requires OwnOnly(s) && ShiftedCopy(s, t, v1, z1, d1) && ShiftedCopy(t, u, v2, z2, d2)
    ensures ShiftedCopy(s, u, Compose(v1, v2), Compose(z1, z2), d1 + d2)
  {
    var v, z := Compose(v1, v2), Compose(z1, z2);
    SameUnderTwice(s.venues, t.venues, u.venues, v1, v2);
    SameUnderTwice(s.zones, t.zones, u.zones, z1, z2);
    ShiftConfigTwice(s.config, d1, d2);
    assert ImageOf(Mover(v, d1 + d2), s.schedules, u.schedules) by {
      forall slot | slot in s.schedules ensures Mover(v2, d2)(Mover(v1, d1)(slot)) == Mover(v, d1 + d2)(slot) {
        MoveSlotTwice(v1, d1, v2, d2, slot);
      }
      ImageCompose(Mover(v1, d1), Mover(v2, d2), Mover(v, d1 + d2), s.schedules, t.schedules, u.schedules);
    }
    assert SamePolicies(s.policies, u.policies, z, d1 + d2) by {
      forall k | k in s.policies ensures u.policies[k] == MovePolicy(z, d1 + d2, s.policies[k]) {
        MovePolicyTwice(z1, d1, z2, d2, s.policies[k]);
      }
    }
  }

  lemma UnmovedSlot(venues: map<Id, Id>, slot: Slot)
    ensures Mover(venues, 0)(slot) == slot.(venue := Renamed(venues, slot.venue))
  {}

  /** A copy moved by nothing differs in the ids only. */
  lemma UnmovedCopy(s: Snapshot, u: Snapshot, venues: map<Id, Id>, zones: map<Id, Id>)
    requires ShiftedCopy(s, u, venues, zones, 0)
    ensures u.sourceStart == s.sourceStart && u.config == s.config && u.schemas == s.schemas
    ensures forall slot | slot in s.schedules :: u.schedules[slot.(venue := Renamed(venues, slot.venue))] == s.schedules[slot]
    ensures forall k | k in s.policies ::
              k in u.policies && u.policies[k] == s.policies[k].(allowed := RenameAll(zones, s.policies[k].allowed))
  {
    ShiftConfigTwice(s.config, 0, 0);
    forall slot | slot in s.schedules
      ensures u.schedules[slot.(venue := Renamed(venues, slot.venue))] == s.schedules[slot]
    {
      UnmovedSlot(venues, slot);
    }
  }

  /** Cloning back to the original start date undoes the move: only the ids differ. */
  lemma CloneBack(s: Snapshot, t: Snapshot, u: Snapshot,
                  v1: map<Id, Id>, z1: map<Id, Id>, d: int, v2: map<Id, Id>, z2: map<Id, Id>)
    requires OwnOnly(s) && ShiftedCopy(s, t, v1, z1, d) && ShiftedCopy(t, u, v2, z2, u.sourceStart - t.sourceStart)
    requires u.sourceStart == s.sourceStart
    ensures ShiftedCopy(s, u, Compose(v1, v2), Compose(z1, z2), 0) && u.config == s.config && u.schemas == s.schemas
  {
    CopyOfCopy(s, t, u, v1, z1, d, v2, z2, -d);
    UnmovedCopy(s, u, Compose(v1, v2), Compose(z1, z2));
  }

  /** A copy is again self-contained, so it can be cloned in turn. */
  lemma CopyIsOwnOnly(s: Snapshot, t: Snapshot, venues: map<Id, Id>, zones: map<Id, Id>, delta: int)
    requires OwnOnly(s) && ShiftedCopy(s, t, venues, zones, delta)
    ensures OwnOnly(t)
  {
    forall w | w in t.venues ensures !t.venues[w].shared {
      var v :| v in venues && venues[v] == w;
    }
    forall k, i | k in t.policies && 0 <= i < |t.policies[k].allowed| ensures t.policies[k].allowed[i] in t.zones {
      assert s.policies[k].allowed[i] in s.zones;
      assert zones[s.policies[k].allowed[i]] in zones.Values;
    }
    forall y | y in t.schedules && y.venue.Some? ensures y.venue.value in t.venues {
      assert Hit(Mover(venues, delta), s.schedules, y);
      var x :| x in s.schedules && Mover(venues, delta)(x) == y;
      assert venues[x.venue.value] in venues.Values;
    }
  }

  /* ---- The service ---- */

  /** What becomes of an item: its venue under the map, or no venue when the map does not know it. */
  function CloneSlot(venues: map<Id, Id>, delta: int, slot: Slot): Slot {
    slot.(venue := if slot.venue.Some? && slot.venue.value in venues then Some(venues[slot.venue.value]) else None,
          start := ShiftTime(slot.start, delta), end := ShiftTime(slot.end, delta))
  }

  /** Zone ids that the snapshot does not list are dropped. */
  function CloneAllowed(zones: map<Id, Id>, ids: seq<Id>): seq<Id> {
    if ids == [] then []
    else CloneAllowed(zones, ids[..|ids| - 1]) + (if ids[|ids| - 1] in zones then [zones[ids[|ids| - 1]]] else [])
  }

  function ClonePolicy(zones: map<Id, Id>, delta: int, p: PolicyCopy): Policy {
    Policy(CloneAllowed(zones, p.allowed), p.reentry, p.maxEntries, ShiftTime(p.from, delta), ShiftTime(p.until, delta), None)
  }

  datatype CloneOutcome = Cloned(event: Id) | SourceMissing | BadDates | BadDetails | SharedVenueGone | BadSlot(reason: Refusal)

  /** Every row belongs to an existing event, and every id in use was handed out. */
  ghost predicate Backed(s: Store, nextId: Id) {
    && (forall e | e in s.events :: e < nextId)
    && (forall v | v in s.venues :: v < nextId && s.venues[v].event in s.events)
    && (forall item | item in s.items :: item.id < nextId && item.event in s.events
          && (item.slot.venue.Some? ==> item.slot.venue.value < nextId))
    && (forall z | z in s.zones :: z < nextId && s.zones[z].event in s.events)
    && (forall e | e in s.configs :: e in s.events)
    && (forall e | e in s.schemas :: e in s.events)
    && (forall e | e in s.policies :: e in s.events)
  }

  class CloneService {
    const calendar: ScheduleService
    var configs: map<Id, Config>
    var schemas: map<Id, map<string, string>>
    var zones: map<Id, Zone>
    var policies: map<Id, map<string, Policy>>
    var nextId: Id

    constructor (calendar: ScheduleService)
      requires calendar.Valid() && calendar.events == map[] && calendar.venues == map[]
      ensures Valid() && this.calendar == calendar
    {
      this.calendar := calendar;
      configs, schemas, zones, policies, nextId := map[], map[], map[], map[], 0;
    }

    function View(): Store
      reads this, calendar
    {
      Store(calendar.events, calendar.venues, calendar.items, configs, schemas, zones, policies)
    }

    /** Ids are handed out by a counter; every row belongs to an existing event, every item to an existing venue. */
    ghost predicate Valid()
      reads this, calendar
    {
      calendar.Valid() && Backed(View(), nextId)
    }

    method TemplateSnapshot(e: Id) returns (s: Snapshot)
      requires e in calendar.events
      ensures s == SnapshotOf(View(), e)
    {
      var slots := multiset{};
      for k := 0 to |calendar.items|
        invariant slots == SlotsOf(calendar.items[..k], e)
      {
        var item := calendar.items[k];
        assert calendar.items[..k + 1][..k] == calendar.items[..k];
        if item.event == e && item.status == Scheduled {
          slots := slots + multiset{item.slot};
        }
      }
      assert calendar.items[..|calendar.items|] == calendar.items;
      s := Snapshot(calendar.events[e].start, ConfigOf(configs, e), TableOf(schemas, e), VenuesOf(calendar.venues, e),
                    slots, ZonesOf(zones, e), PoliciesOf(policies, e));
    }

    /** A new venue for the clone; a shared venue stays where it is and must still be shared. */
    method CopyVenue(v: Id, copy: VenueCopy, event: Id, venueMap0: map<Id, Id>, ghost done: map<Id, VenueCopy>, ghost origin0: map<Id, Id>,
                     ghost low: Id, ghost before: map<Id, Venue>) returns (ok: bool, venueMap: map<Id, Id>, ghost origin: map<Id, Id>)
      requires calendar.Valid() && event in calendar.Live() && low <= nextId && v !in done
      requires VenuesCopied(done, venueMap0, origin0, event, low, nextId, before, calendar.venues)
      modifies this`nextId, calendar`venues
      ensures calendar.Valid() && nextId >= old(nextId)
      ensures ok <==> (copy.shared ==> v in before && before[v].shared)
      ensures ok ==> VenuesCopied(done[v := copy], venueMap, origin, event, low, nextId, before, calendar.venues)
    {
      venueMap, origin := venueMap0, origin0;
      SharedIsOld(done, venueMap, origin, event, low, nextId, before, calendar.venues, v);
      if copy.shared {
        if v !in calendar.venues || !calendar.venues[v].shared {
          return false, venueMap, origin;
        }
        SharedVenueCopied(done, venueMap, origin, event, low, nextId, before, calendar.venues, v, copy);
        venueMap := venueMap[v := v];
      } else {
        NewVenueCopied(done, venueMap, origin, event, low, nextId, before, calendar.venues, v, copy);
        var added := calendar.AddVenue(event, nextId, false, copy.capacity, copy.availability, copy.description);
        venueMap, origin := venueMap[v := nextId], origin[nextId := v];
        nextId := nextId + 1;
      }
      ok := true;
    }

    /** Copies every listed venue, or stops at a shared one that is gone. */
    method CopyVenues(list: map<Id, VenueCopy>, event: Id) returns (ok: bool, venueMap: map<Id, Id>, ghost origin: map<Id, Id>)
      requires calendar.Valid() && event in calendar.Live()
      requires forall v | v in calendar.venues :: v < nextId
      modifies this`nextId, calendar`venues
      ensures calendar.Valid() && nextId >= old(nextId)
      ensures ok ==> VenuesCopied(list, venueMap, origin, event, old(nextId), nextId, old(calendar.venues), calendar.venues)
      ensures ok <==> StillShared(list, old(calendar.venues))
    {
      ok, venueMap, origin := true, map[], map[];
      var todo := list.Keys;
      while todo != {}
        invariant calendar.Valid() && event in calendar.Live() && nextId >= old(nextId)
        invariant todo <= list.Keys && ok && StillShared(list - todo, old(calendar.venues))
        invariant VenuesCopied(list - todo, venueMap, origin, event, old(nextId), nextId, old(calendar.venues), calendar.venues)
      {
        var v :| v in todo;
        OneDone(list, todo, v);
        OneMoreShared(list - todo, old(calendar.venues), v, list[v]);
        ok, venueMap, origin := CopyVenue(v, list[v], event, venueMap, list - todo, origin, old(nextId), old(calendar.venues));
        if !ok {
          return;
        }
        todo := todo - {v};
      }
      assert list - todo == list;
    }

    predicate Fits(event: Id, slot: Slot)
      reads this, calendar
      requires event in calendar.events
    {
      Bookable(calendar.events[event], calendar.venues, event, slot) && Free(calendar.View(), slot, None)
    }

    /** Books the copy of one slot next to the items there are and the ones already added. */
    method BookCopy(slot: Slot, event: Id, venueMap: map<Id, Id>, delta: int, ghost done: multiset<Slot>, ghost before: seq<Item>,
                    ghost added0: seq<Item>) returns (r: Outcome, ghost added: seq<Item>)
      requires calendar.Valid() && event in calendar.Live()
      requires forall k | 0 <= k < |calendar.items| :: calendar.items[k].id < nextId
      requires calendar.items == before + added0 && ItemsCopied(done, event, venueMap, delta, added0)
      modifies this`nextId, calendar`items
      ensures calendar.Valid() && nextId >= old(nextId) && calendar.items == before + added
      ensures r == Done ==> ItemsCopied(done + multiset{slot}, event, venueMap, delta, added)
      ensures r == Done ==> forall k | 0 <= k < |calendar.items| :: calendar.items[k].id < nextId
      ensures r != Done ==> added == added0
      ensures r == Done <==> old(Fits(event, CloneSlot(venueMap, delta, slot)))
    {
      added := added0;
      r := calendar.AddScheduleItem(event, CloneSlot(venueMap, delta, slot), nextId);
      if r == Done {
        ghost var item := Item(nextId, event, CloneSlot(venueMap, delta, slot), Scheduled);
        ItemCopied(done, event, venueMap, delta, added0, slot, item);
        assert before + added0 + [item] == before + (added0 + [item]);
        added := added0 + [item];
      }
      nextId := nextId + 1;
    }

    /** Books every listed item for the clone, at its moved times, or stops at one that cannot be booked next to the
        rows there are by then. */
    method CopySchedule(slots: multiset<Slot>, event: Id, venueMap: map<Id, Id>, delta: int) returns (r: Outcome, ghost added: seq<Item>)
      requires calendar.Valid() && event in calendar.Live()
      requires forall k | 0 <= k < |calendar.items| :: calendar.items[k].id < nextId
      modifies this`nextId, calendar`items
      ensures calendar.Valid() && nextId >= old(nextId)
      ensures calendar.items == old(calendar.items) + added && (r == Done ==> ItemsCopied(slots, event, venueMap, delta, added))
      ensures r == Done ==> forall k | 0 <= k < |calendar.items| :: calendar.items[k].id < nextId
      ensures r != Done ==> exists slot | slot in slots :: !Fits(event, CloneSlot(venueMap, delta, slot))
    {
      r, added := Done, [];
      var todo := slots;
      ghost var done := multiset{};
      NoItemsCopied(event, venueMap, delta);
      while todo != multiset{}
        invariant calendar.Valid() && event in calendar.Live() && nextId >= old(nextId)
        invariant todo + done == slots && r == Done
        invariant calendar.items == old(calendar.items) + added && ItemsCopied(done, event, venueMap, delta, added)
        invariant forall k | 0 <= k < |calendar.items| :: calendar.items[k].id < nextId
        decreases |todo|
      {
        var slot :| slot in todo;
        OneSlotDone(slots, todo, done, slot);
        r, added := BookCopy(slot, event, venueMap, delta, done, old(calendar.items), added);
        if r != Done {
          assert !Fits(event, CloneSlot(venueMap, delta, slot));
          return;
        }
        todo, done := todo - multiset{slot}, done + multiset{slot};
      }
      assert done == slots;
    }

    /** The event row, its configuration with moved deadlines, and its field schemas. */
    method StartClone(s: Snapshot, start: int, end: int) returns (ok: bool)
      requires Valid() && KnownVenues(s, nextId) && start < end
      modifies this`nextId, this`configs, this`schemas, calendar`events
      ensures ok ==> calendar.Valid() && nextId == old(nextId) + 1 && old(nextId) in calendar.Live()
      ensures ok ==> Started(old(View()), View(), s, old(nextId), start - s.sourceStart, nextId)
      ensures ok ==> calendar.events[old(nextId)] == Event(start, end, false)
      ensures ok <==> (s.config.Some? ==> Shiftable(s.config.value.details))
    {
      var delta, event := start - s.sourceStart, nextId;
      if s.config.Some? && !Shiftable(s.config.value.details) {
        return false;
      }
      var created := calendar.CreateEvent(event, start, end);
      nextId := nextId + 1;
      if s.config.Some? {
        configs := configs[event := s.config.value.(details := ShiftDetails(s.config.value.details, delta))];
      }
      CopySchemas(s.schemas, event);
      ok := true;
    }

    /** Creates an event from a snapshot; a failure is rolled back by the caller. */
    method CloneSnapshot(s: Snapshot, start: int, end: int) returns (r: CloneOutcome)
      requires Valid() && KnownVenues(s, nextId)
      modifies this, calendar
      ensures r.Cloned? ==> Valid() && r.event == old(nextId) && IsClone(old(View()), View(), s, r.event, start, end)
      ensures r == BadDates <==> end <= start
      ensures r == BadDetails <==> start < end && s.config.Some? && !Shiftable(s.config.value.details)
      ensures r == SharedVenueGone ==> !StillShared(s.venues, old(calendar.venues))
      ensures r != SourceMissing
    {
      if end <= start {
        return BadDates;
      }
      ghost var before := View();
      var event := nextId;
      var ok := StartClone(s, start, end);
      if !ok {
        return BadDetails;
      }
      r := CopyRest(before, s, event, start - s.sourceStart);
    }

    /** The venues and items of the clone. */
    method CopyBookings(venues: map<Id, VenueCopy>, slots: multiset<Slot>, event: Id, delta: int)
        returns (r: CloneOutcome, ghost venueMap: map<Id, Id>, ghost origin: map<Id, Id>, ghost middle: Id, ghost added: seq<Item>)
      requires calendar.Valid() && event in calendar.Live()
      requires forall v | v in calendar.venues :: v < nextId
      requires forall item | item in calendar.items :: item.id < nextId
      modifies this`nextId, calendar`venues, calendar`items
      ensures r.Cloned? ==> calendar.Valid() && old(nextId) <= middle <= nextId
      ensures r.Cloned? ==> VenuesCopied(venues, venueMap, origin, event, old(nextId), middle, old(calendar.venues), calendar.venues)
      ensures r.Cloned? ==> calendar.items == old(calendar.items) + added && ItemsCopied(slots, event, venueMap, delta, added)
      ensures r.Cloned? ==> forall item | item in added :: item.id < nextId
      ensures r == SharedVenueGone <==> !StillShared(venues, old(calendar.venues))
      ensures r.Cloned? || r.BadSlot? || r == SharedVenueGone
    {
      var ok, names;
      added, middle := [], nextId;
      ok, names, origin := CopyVenues(venues, event);
      venueMap := names;
      if !ok {
        r := SharedVenueGone;
        return;
      }
      middle := nextId;
      var booked;
      booked, added := CopySchedule(slots, event, names, delta);
      r := if booked == Done then Cloned(event) else BadSlot(booked.reason);
      if booked == Done {
        forall item | item in added ensures item.id < nextId {
          var k :| 0 <= k < |added| && added[k] == item;
          assert calendar.items[|old(calendar.items)| + k] == item;
        }
      }
    }

    /** The zones of the clone and its policies, which refer to them. */
    method CopyAccess(list: map<Id, ZoneCopy>, rules: map<string, PolicyCopy>, event: Id, delta: int)
        returns (ghost zoneMap: map<Id, Id>, ghost origin: map<Id, Id>)
      requires event !in policies && forall z | z in zones :: z < nextId
      modifies this`nextId, this`zones, this`policies
      ensures nextId >= old(nextId) && ZonesCopied(list, zoneMap, origin, event, old(nextId), nextId, old(zones), zones)
      ensures PoliciesOf(policies, event) == map k | k in rules :: CopyPolicy(ClonePolicy(zoneMap, delta, rules[k]))
      ensures forall k | k in TableOf(policies, event) :: TableOf(policies, event)[k].validDates.None?
      ensures KeptKeys(old(policies), policies, event)
    {
      var names;
      names, origin := CopyZones(list, event);
      CopyPolicies(rules, event, names, delta);
      zoneMap := names;
    }

    method CopyRows(ghost before: Store, s: Snapshot, event: Id, delta: int)
        returns (r: CloneOutcome, ghost middle: Id, ghost high: Id, ghost venueMap: map<Id, Id>, ghost venueOrigin: map<Id, Id>,
                 ghost added: seq<Item>, ghost zoneMap: map<Id, Id>, ghost zoneOrigin: map<Id, Id>)
      requires calendar.Valid() && event in calendar.Live() && Started(before, View(), s, event, delta, nextId)
      modifies this`nextId, this`zones, this`policies, calendar`venues, calendar`items
      ensures r.Cloned? ==> r.event == event && calendar.Valid()
      ensures r.Cloned? ==> AllCopied(before, old(View()), View(), s, event, delta, old(nextId), middle, high, nextId,
                                      venueMap, venueOrigin, added, zoneMap, zoneOrigin)
      ensures r == SharedVenueGone <==> !StillShared(s.venues, before.venues)
      ensures r.Cloned? || r.BadSlot? || r == SharedVenueGone
    {
      zoneMap, zoneOrigin, high := map[], map[], nextId;
      r, venueMap, venueOrigin, middle, added := CopyBookings(s.venues, s.schedules, event, delta);
      if r.Cloned? {
        high := nextId;
        zoneMap, zoneOrigin := CopyAccess(s.zones, s.policies, event, delta);
        r := Cloned(event);
      }
    }

    /** The venues, items, zones and policies of the clone. */
    method CopyRest(ghost before: Store, s: Snapshot, event: Id, delta: int) returns (r: CloneOutcome)
      requires calendar.Valid() && event in calendar.Live() && Started(before, View(), s, event, delta, nextId)
      modifies this`nextId, this`zones, this`policies, calendar`venues, calendar`items
      ensures r.Cloned? ==> r.event == event && Valid()
      ensures r.Cloned? ==> IsClone(before, View(), s, event, s.sourceStart + delta, old(calendar.events)[event].end)
      ensures r == SharedVenueGone <==> !StillShared(s.venues, before.venues)
      ensures r.Cloned? || r.BadSlot? || r == SharedVenueGone
    {
      ghost var low, started := nextId, View();
      ghost var middle, high, venueMap, venueOrigin, added, zoneMap, zoneOrigin;
      r, middle, high, venueMap, venueOrigin, added, zoneMap, zoneOrigin := CopyRows(before, s, event, delta);
      if r.Cloned? {
        BackedAfter(before, started, View(), s, event, delta, low, middle, high, nextId, venueMap, venueOrigin, added, zoneMap, zoneOrigin);
        Assemble(before, started, View(), s, event, delta, low, middle, high, nextId, venueMap, venueOrigin, added, zoneMap, zoneOrigin);
      }
    }

    /** Takes every table back to an earlier state. */
    method RollBack(s: Store, nextId0: Id)
      modifies this, calendar
      ensures View() == s && nextId == nextId0
    {
      calendar.events, calendar.venues, calendar.items := s.events, s.venues, s.items;
      configs, schemas, zones, policies, nextId := s.configs, s.schemas, s.zones, s.policies, nextId0;
    }

    /** Duplicates an event, or changes nothing. */
    method DuplicateEvent(source: Id, start: int, end: int) returns (r: CloneOutcome)
      requires Valid()
      modifies this, calendar
      ensures Valid()
      ensures r == SourceMissing <==> source !in old(calendar.Live())
      ensures r.Cloned? ==> source in old(calendar.Live())
      ensures r.Cloned? ==> IsClone(old(View()), View(), SnapshotOf(old(View()), source), r.event, start, end)
      ensures !r.Cloned? ==> View() == old(View())
      ensures r == BadDates <==> source in old(calendar.Live()) && end <= start
      ensures r == BadDetails <==>
                source in old(calendar.Live()) && start < end && source in old(configs) && !Shiftable(old(configs)[source].details)
      ensures r != SharedVenueGone
    {
      if source !in calendar.Live() {
        return SourceMissing;
      }
      var before, nextId0 := View(), nextId;
      var s := TemplateSnapshot(source);
      SnapshotKnowsVenues(before, source, nextId);
      r := CloneSnapshot(s, start, end);
      if !r.Cloned? {
        RollBack(before, nextId0);
      }
    }

    method CopyZones(list: map<Id, ZoneCopy>, event: Id) returns (zoneMap: map<Id, Id>, ghost origin: map<Id, Id>)
      requires forall z | z in zones :: z < nextId
      modifies this`nextId, this`zones
      ensures nextId >= old(nextId)
      ensures ZonesCopied(list, zoneMap, origin, event, old(nextId), nextId, old(zones), zones)
    {
      zoneMap, origin := map[], map[];
      ghost var done: map<Id, ZoneCopy> := map[];
      var todo := list.Keys;
      while todo != {}
        invariant nextId >= old(nextId)
        invariant todo <= list.Keys && done.Keys == list.Keys - todo && forall z | z in done :: done[z] == list[z]
        invariant ZonesCopied(done, zoneMap, origin, event, old(nextId), nextId, old(zones), zones)
      {
        var z :| z in todo;
        ZoneCopied(done, zoneMap, origin, event, old(nextId), nextId, old(zones), zones, z, list[z]);
        zones := zones[nextId := NewZone(event, list[z])];
        zoneMap, origin := zoneMap[z := nextId], origin[nextId := z];
        nextId := nextId + 1;
        done := done[z := list[z]];
        todo := todo - {z};
      }
      assert done == list;
    }

    method CopyPolicies(list: map<string, PolicyCopy>, event: Id, zoneMap: map<Id, Id>, delta: int)
      requires event !in policies
      modifies this`policies
      ensures PoliciesOf(policies, event) == map k | k in list :: CopyPolicy(ClonePolicy(zoneMap, delta, list[k]))
      ensures forall k | k in TableOf(policies, event) :: TableOf(policies, event)[k].validDates.None?
      ensures KeptKeys(old(policies), policies, event)
    {
      var todo := list.Keys;
      policies := policies[event := map[]];
      while todo != {}
        invariant todo <= list.Keys && event in policies && KeptKeys(old(policies), policies, event)
        invariant policies[event] == map k | k in list && k !in todo :: ClonePolicy(zoneMap, delta, list[k])
      {
        var k :| k in todo;
        var table := policies[event][k := ClonePolicy(zoneMap, delta, list[k])];
        todo := todo - {k};
        assert table == map j | j in list && j !in todo :: ClonePolicy(zoneMap, delta, list[j]);
        policies := policies[event := table];
      }
    }

    method CopySchemas(list: map<string, string>, event: Id)
      requires event !in schemas
      modifies this`schemas
      ensures TableOf(schemas, event) == list
      ensures KeptKeys(old(schemas), schemas, event)
    {
      var todo := list.Keys;
      schemas := schemas[event := map[]];
      while todo != {}
        invariant todo <= list.Keys && event in schemas && KeptKeys(old(schemas), schemas, event)
        invariant schemas[event] == map k | k in list && k !in todo :: list[k]
      {
        var k :| k in todo;
        var table := schemas[event][k := list[k]];
        todo := todo - {k};
        assert table == map j | j in list && j !in todo :: list[j];
        schemas := schemas[event := table];
      }
    }
  }

  function NewVenue(event: Id, copy: VenueCopy): Venue {
    Venue(event, false, copy.capacity, copy.availability, copy.description)
  }

  /** Which venues the copy has created so far, where the map sends the listed ones, and which one each new venue
      comes from. */
  ghost predicate VenuesCopied(list: map<Id, VenueCopy>, venueMap: map<Id, Id>, origin: map<Id, Id>, event: Id, low: Id, high: Id,
                               before: map<Id, Venue>, after: map<Id, Venue>) {
    && (forall w | w in before :: w < low && w in after && after[w] == before[w])
    && after.Keys == before.Keys + origin.Keys && venueMap.Keys == list.Keys
    && (forall w | w in origin :: low <= w < high && origin[w] in list && !list[origin[w]].shared && venueMap[origin[w]] == w
          && after[w] == NewVenue(event, list[origin[w]]))
    && (forall v | v in list && list[v].shared :: venueMap[v] == v && v in before)
    && (forall v | v in list && !list[v].shared :: venueMap[v] in origin && origin[venueMap[v]] == v)
  }

  /** Every shared venue of the list is there and still shared. */
  predicate StillShared(list: map<Id, VenueCopy>, venues: map<Id, Venue>) {
    forall v | v in list && list[v].shared :: v in venues && venues[v].shared
  }

  lemma OneDone<V>(list: map<Id, V>, todo: set<Id>, v: Id)
    requires v in todo && todo <= list.Keys
    ensures (list - todo)[v := list[v]] == list - (todo - {v}) && v !in list - todo
  {}

  lemma OneMoreShared(list: map<Id, VenueCopy>, venues: map<Id, Venue>, v: Id, copy: VenueCopy)
    requires v !in list && StillShared(list, venues)
    ensures StillShared(list[v := copy], venues) <==> (copy.shared ==> v in venues && venues[v].shared)
  {
    assert list[v := copy][v] == copy;
  }

  /** The copy creates no shared venue. */
  lemma SharedIsOld(list: map<Id, VenueCopy>, venueMap: map<Id, Id>, origin: map<Id, Id>, event: Id, low: Id, high: Id,
                    before: map<Id, Venue>, after: map<Id, Venue>, v: Id)
    requires VenuesCopied(list, venueMap, origin, event, low, high, before, after)
    ensures v in after && after[v].shared <==> v in before && before[v].shared
  {}

  lemma SharedVenueCopied(list: map<Id, VenueCopy>, venueMap: map<Id, Id>, origin: map<Id, Id>, event: Id, low: Id, high: Id,
                          before: map<Id, Venue>, after: map<Id, Venue>, v: Id, copy: VenueCopy)
    requires VenuesCopied(list, venueMap, origin, event, low, high, before, after)
    requires v !in list && copy.shared && v in after && after[v].shared
    ensures VenuesCopied(list[v := copy], venueMap[v := v], origin, event, low, high, before, after)
  {}

  lemma NewVenueCopied(list: map<Id, VenueCopy>, venueMap: map<Id, Id>, origin: map<Id, Id>, event: Id, low: Id, high: Id,
                       before: map<Id, Venue>, after: map<Id, Venue>, v: Id, copy: VenueCopy)
    requires VenuesCopied(list, venueMap, origin, event, low, high, before, after)
    requires v !in list && !copy.shared && low <= high
    ensures high !in after
    ensures VenuesCopied(list[v := copy], venueMap[v := high], origin[high := v], event, low, high + 1, before,
                         after[high := NewVenue(event, copy)])
  {}

  /** The clone's venues are one copy of each listed venue that is not shared; a shared venue stands for itself and is not
      the clone's. */
  ghost predicate VenuesFollow(list: map<Id, VenueCopy>, copies: map<Id, VenueCopy>, venueMap: map<Id, Id>) {
    && venueMap.Keys == list.Keys
    && (forall v | v in list && list[v].shared :: venueMap[v] == v && v !in copies)
    && (forall v | v in list && !list[v].shared :: venueMap[v] in copies && copies[venueMap[v]] == list[v])
    && (forall v, w | v in list && w in list && !list[v].shared && !list[w].shared && venueMap[v] == venueMap[w] :: v == w)
    && copies.Keys == set v | v in list && !list[v].shared :: venueMap[v]
  }

  /** Without shared venues the map is a renaming between the two events' venues. */
  lemma VenuesRenamed(list: map<Id, VenueCopy>, venueMap: map<Id, Id>, origin: map<Id, Id>, event: Id, low: Id, high: Id,
                      before: map<Id, Venue>, after: map<Id, Venue>)
    requires VenuesCopied(list, venueMap, origin, event, low, high, before, after)
    requires forall w | w in before :: before[w].event != event
    ensures VenuesOf(after, event).Keys == origin.Keys
    ensures forall w | w in VenuesOf(after, event) :: !VenuesOf(after, event)[w].shared
    ensures (forall v | v in list :: !list[v].shared) ==> SameUnder(list, VenuesOf(after, event), venueMap)
    ensures VenuesFollow(list, VenuesOf(after, event), venueMap)
  {
    var copies := VenuesOf(after, event);
    assert copies.Keys == origin.Keys;
    assert forall w | w in copies :: copies[w] == list[origin[w]];
    assert copies.Keys == set v | v in list && !list[v].shared :: venueMap[v];
  }

  lemma ImageAdd<T(!new), U(!new)>(f: T -> U, m: multiset<T>, n: multiset<U>, x: T)
    requires ImageOf(f, m, n)
    requires forall a | a in m :: f(a) == f(x) ==> a == x
    ensures ImageOf(f, m + multiset{x}, n + multiset{f(x)})
  {
    var m', n' := m + multiset{x}, n + multiset{f(x)};
    forall y | y in n' ensures Hit(f, m', y) {
      if y in n {
        assert Hit(f, m, y);
        var a :| a in m && f(a) == y;
        assert a in m';
      } else {
        assert x in m' && f(x) == y;
      }
    }
    if f(x) in n {
      assert Hit(f, m, f(x));
      var a :| a in m && f(a) == f(x);
      assert x in m;
    }
    forall a | a in m' ensures n'[f(a)] == m'[a] {}
  }

  /** The copies of listed slots, counted as often as they arise. */
  function Clones(venueMap: map<Id, Id>, delta: int, order: seq<Slot>): multiset<Slot> {
    if order == [] then multiset{}
    else Clones(venueMap, delta, order[..|order| - 1]) + multiset{CloneSlot(venueMap, delta, order[|order| - 1])}
  }

  ghost predicate AreClones(venueMap: map<Id, Id>, delta: int, slots: multiset<Slot>, copies: multiset<Slot>) {
    exists order :: multiset(order) == slots && Clones(venueMap, delta, order) == copies
  }

  /** The items added for the slots of the snapshot: one copy of each, at venues of the map. */
  ghost predicate ItemsCopied(slots: multiset<Slot>, event: Id, venueMap: map<Id, Id>, delta: int, added: seq<Item>) {
    && (forall k | 0 <= k < |added| :: added[k].event == event && added[k].status == Scheduled
          && (added[k].slot.venue.Some? ==> added[k].slot.venue.value in venueMap.Values))
    && AreClones(venueMap, delta, slots, SlotsOf(added, event))
  }

  function Cloner(venueMap: map<Id, Id>, delta: int): Slot -> Slot {
    (slot: Slot) => CloneSlot(venueMap, delta, slot)
  }

  ghost predicate Distinguishes(venueMap: map<Id, Id>, delta: int, slots: multiset<Slot>) {
    forall a, b | a in slots && b in slots && Cloner(venueMap, delta)(a) == Cloner(venueMap, delta)(b) :: a == b
  }

  lemma OneSlotDone(slots: multiset<Slot>, todo: multiset<Slot>, done: multiset<Slot>, slot: Slot)
    requires slot in todo && todo + done == slots
    ensures (todo - multiset{slot}) + (done + multiset{slot}) == slots
    ensures |todo - multiset{slot}| < |todo| && slot in slots
  {}

  lemma NoItemsCopied(event: Id, venueMap: map<Id, Id>, delta: int)
    ensures ItemsCopied(multiset{}, event, venueMap, delta, [])
  {
    var none: seq<Slot> := [];
    assert multiset(none) == multiset{} && Clones(venueMap, delta, none) == multiset{};
  }

  lemma ClonesOneMore(venueMap: map<Id, Id>, delta: int, order: seq<Slot>, slot: Slot)
    ensures Clones(venueMap, delta, order + [slot]) == Clones(venueMap, delta, order) + multiset{CloneSlot(venueMap, delta, slot)}
  {
    assert (order + [slot])[..|order|] == order;
  }

  lemma OneMoreClone(venueMap: map<Id, Id>, delta: int, slots: multiset<Slot>, copies: multiset<Slot>, slot: Slot)
    requires AreClones(venueMap, delta, slots, copies)
    ensures AreClones(venueMap, delta, slots + multiset{slot}, copies + multiset{CloneSlot(venueMap, delta, slot)})
  {
    var order :| multiset(order) == slots && Clones(venueMap, delta, order) == copies;
    var more := order + [slot];
    ClonesOneMore(venueMap, delta, order, slot);
    assert multiset(more) == slots + multiset{slot};
    assert Clones(venueMap, delta, more) == copies + multiset{CloneSlot(venueMap, delta, slot)};
  }

  lemma SlotsOfOneMore(items: seq<Item>, item: Item, event: Id)
    requires item.event == event && item.status == Scheduled
    ensures SlotsOf(items + [item], event) == SlotsOf(items, event) + multiset{item.slot}
  {
    assert (items + [item])[..|items|] == items;
  }

  lemma ItemCopied(done: multiset<Slot>, event: Id, venueMap: map<Id, Id>, delta: int, added: seq<Item>, slot: Slot, item: Item)
    requires ItemsCopied(done, event, venueMap, delta, added)
    requires item.event == event && item.status == Scheduled && item.slot == CloneSlot(venueMap, delta, slot)
    ensures ItemsCopied(done + multiset{slot}, event, venueMap, delta, added + [item])
  {
    SlotsOfOneMore(added, item, event);
    OneMoreClone(venueMap, delta, done, SlotsOf(added, event), slot);
  }

  /** When no two listed slots become equal, the copies are the image of the slots. */
  lemma {:induction false} ClonesAreImage(venueMap: map<Id, Id>, delta: int, order: seq<Slot>)
    requires Distinguishes(venueMap, delta, multiset(order))
    ensures ImageOf(Cloner(venueMap, delta), multiset(order), Clones(venueMap, delta, order))
  {
    if order != [] {
      var init, last := order[..|order| - 1], order[|order| - 1];
      assert order == init + [last];
      assert multiset(order) == multiset(init) + multiset{last};
      ClonesAreImage(venueMap, delta, init);
      assert Cloner(venueMap, delta)(last) == CloneSlot(venueMap, delta, last);
      ImageAdd(Cloner(venueMap, delta), multiset(init), Clones(venueMap, delta, init), last);
    }
  }

  lemma AddedItems(slots: multiset<Slot>, event: Id, venueMap: map<Id, Id>, delta: int, added: seq<Item>)
    requires ItemsCopied(slots, event, venueMap, delta, added)
    ensures forall item | item in added :: item.event == event && (item.slot.venue.Some? ==> item.slot.venue.value in venueMap.Values)
  {}

  lemma AddedVenues(slots: multiset<Slot>, event: Id, venueMap: map<Id, Id>, delta: int, added: seq<Item>)
    requires ItemsCopied(slots, event, venueMap, delta, added)
    ensures forall y | y in SlotsOf(added, event) && y.venue.Some? :: y.venue.value in venueMap.Values
  {
    forall y | y in SlotsOf(added, event) && y.venue.Some? ensures y.venue.value in venueMap.Values {
      SlotsOfMember(added, event, y);
    }
  }

  lemma {:induction false} SlotsOfNone(items: seq<Item>, event: Id)
    requires forall k | 0 <= k < |items| :: items[k].event != event
    ensures SlotsOf(items, event) == multiset{}
  {
    if items != [] {
      SlotsOfNone(items[..|items| - 1], event);
    }
  }

  lemma {:induction false} SlotsOfMember(items: seq<Item>, event: Id, slot: Slot)
    requires slot in SlotsOf(items, event)
    ensures exists k :: 0 <= k < |items| && items[k].slot == slot && items[k].event == event && items[k].status == Scheduled
  {
    var init, last := items[..|items| - 1], items[|items| - 1];
    if slot in SlotsOf(init, event) {
      SlotsOfMember(init, event, slot);
      var k :| 0 <= k < |init| && init[k].slot == slot && init[k].event == event && init[k].status == Scheduled;
      assert items[k].slot == slot;
    }
  }

  function NewZone(event: Id, copy: ZoneCopy): Zone {
    Zone(event, copy.code, copy.name, copy.active)
  }

  ghost predicate ZonesCopied(list: map<Id, ZoneCopy>, zoneMap: map<Id, Id>, origin: map<Id, Id>, event: Id, low: Id, high: Id,
                              before: map<Id, Zone>, after: map<Id, Zone>) {
    && (forall w | w in before :: w < low && w in after && after[w] == before[w])
    && after.Keys == before.Keys + origin.Keys && zoneMap.Keys == list.Keys
    && (forall w | w in origin :: low <= w < high && origin[w] in list && zoneMap[origin[w]] == w
          && after[w] == NewZone(event, list[origin[w]]))
    && (forall z | z in list :: zoneMap[z] in origin && origin[zoneMap[z]] == z)
  }

  lemma ZoneCopied(list: map<Id, ZoneCopy>, zoneMap: map<Id, Id>, origin: map<Id, Id>, event: Id, low: Id, high: Id,
                   before: map<Id, Zone>, after: map<Id, Zone>, z: Id, copy: ZoneCopy)
    requires ZonesCopied(list, zoneMap, origin, event, low, high, before, after)
    requires z !in list && low <= high
    ensures ZonesCopied(list[z := copy], zoneMap[z := high], origin[high := z], event, low, high + 1, before,
                        after[high := NewZone(event, copy)])
  {
    assert high !in before && high !in origin;
  }

  lemma ZonesRenamed(list: map<Id, ZoneCopy>, zoneMap: map<Id, Id>, origin: map<Id, Id>, event: Id, low: Id, high: Id,
                     before: map<Id, Zone>, after: map<Id, Zone>)
    requires ZonesCopied(list, zoneMap, origin, event, low, high, before, after)
    requires forall w | w in before :: before[w].event != event
    ensures SameUnder(list, ZonesOf(after, event), zoneMap)
  {}

  lemma {:induction false} AllowedIsRenamed(zones: map<Id, Id>, ids: seq<Id>)
    ensures |CloneAllowed(zones, ids)| == |ids| <==> forall i | 0 <= i < |ids| :: ids[i] in zones
    ensures |CloneAllowed(zones, ids)| <= |ids|
    ensures |CloneAllowed(zones, ids)| == |ids| ==> CloneAllowed(zones, ids) == RenameAll(zones, ids)
  {
    if ids != [] {
      AllowedIsRenamed(zones, ids[..|ids| - 1]);
    }
  }

  /* ---- When a clone is a faithful copy ---- */

  predicate KnownVenues(s: Snapshot, limit: Id) {
    forall slot | slot in s.schedules && slot.venue.Some? :: slot.venue.value < limit
  }

  ghost predicate IsShiftedCopy(s: Snapshot, t: Snapshot, delta: int) {
    exists venues, zones :: ShiftedCopy(s, t, venues, zones, delta)
  }

  /** What the steps of a clone establish about the snapshot t of the new event. */
  ghost predicate CopyFacts(s: Snapshot, t: Snapshot, venueMap: map<Id, Id>, zoneMap: map<Id, Id>, delta: int, low: Id) {
    && KnownVenues(s, low)
    && t.sourceStart == s.sourceStart + delta && t.config == ShiftConfig(s.config, delta) && t.schemas == s.schemas
    && (forall w | w in t.venues :: !t.venues[w].shared)
    && ((forall v | v in s.venues :: !s.venues[v].shared) ==> SameUnder(s.venues, t.venues, venueMap))
    && venueMap.Keys == s.venues.Keys && (forall v | v in venueMap :: venueMap[v] == v || low <= venueMap[v])
    && SameUnder(s.zones, t.zones, zoneMap)
    && (forall y | y in t.schedules && y.venue.Some? :: y.venue.value in venueMap.Values)
    && AreClones(venueMap, delta, s.schedules, t.schedules)
    && t.policies == map k | k in s.policies :: CopyPolicy(ClonePolicy(zoneMap, delta, s.policies[k]))
  }

  /** For some maps of venues and zones, all of it was copied as the steps say. */
  ghost predicate FollowsSnapshot(s: Snapshot, t: Snapshot, delta: int) {
    exists venueMap, zoneMap, low :: CopyFacts(s, t, venueMap, zoneMap, delta, low) && VenuesFollow(s.venues, t.venues, venueMap)
  }

  lemma FollowedBy(s: Snapshot, t: Snapshot, venueMap: map<Id, Id>, zoneMap: map<Id, Id>, delta: int, low: Id)
    requires CopyFacts(s, t, venueMap, zoneMap, delta, low) && VenuesFollow(s.venues, t.venues, venueMap)
    ensures FollowsSnapshot(s, t, delta)
  {}

  lemma ItemsOfOthers(before: seq<Item>, added: seq<Item>, event: Id)
    requires forall k | 0 <= k < |before| :: before[k].event != event
    requires forall k | 0 <= k < |added| :: added[k].event == event
    ensures SlotsOf(before + added, event) == SlotsOf(added, event)
  {
    SlotsOfConcat(before, added, event);
    SlotsOfNone(before, event);
  }

  lemma VenueMapRange(list: map<Id, VenueCopy>, venueMap: map<Id, Id>, origin: map<Id, Id>, event: Id, low: Id, high: Id,
                      before: map<Id, Venue>, after: map<Id, Venue>)
    requires VenuesCopied(list, venueMap, origin, event, low, high, before, after) && low <= high
    ensures forall v | v in venueMap :: venueMap[v] == v || low <= venueMap[v]
    ensures forall w | w in venueMap.Values :: w < high
  {}

  lemma ImageSame<T(!new), U(!new)>(f: T -> U, g: T -> U, m: multiset<T>, n: multiset<U>)
    requires ImageOf(f, m, n) && forall x | x in m :: f(x) == g(x)
    ensures ImageOf(g, m, n)
  {
    forall y | y in n ensures Hit(g, m, y) {
      assert Hit(f, m, y);
      var x :| x in m && f(x) == y;
      assert g(x) == y;
    }
  }

  lemma SchedulesCopied(slots: multiset<Slot>, copies: multiset<Slot>, venueMap: map<Id, Id>, delta: int)
    requires Injective(venueMap)
    requires forall slot | slot in slots && slot.venue.Some? :: slot.venue.value in venueMap
    requires AreClones(venueMap, delta, slots, copies)
    ensures ImageOf(Mover(venueMap, delta), slots, copies)
  {
    forall slot | slot in slots ensures Cloner(venueMap, delta)(slot) == Mover(venueMap, delta)(slot) {}
    assert Distinguishes(venueMap, delta, slots) by {
      forall a, b | a in slots && b in slots && Cloner(venueMap, delta)(a) == Cloner(venueMap, delta)(b) ensures a == b {
        SameClone(venueMap, delta, a, b);
      }
    }
    var order :| multiset(order) == slots && Clones(venueMap, delta, order) == copies;
    ClonesAreImage(venueMap, delta, order);
    ImageSame(Cloner(venueMap, delta), Mover(venueMap, delta), slots, copies);
  }

  lemma OwnOnlyIsCopied(s: Snapshot, t: Snapshot, venueMap: map<Id, Id>, zoneMap: map<Id, Id>, delta: int, low: Id)
    requires CopyFacts(s, t, venueMap, zoneMap, delta, low) && OwnOnly(s)
    ensures ShiftedCopy(s, t, venueMap, zoneMap, delta)
  {
    SchedulesCopied(s.schedules, t.schedules, venueMap, delta);
    forall k | k in s.policies ensures t.policies[k] == MovePolicy(zoneMap, delta, s.policies[k]) {
      AllowedIsRenamed(zoneMap, s.policies[k].allowed);
    }
  }

  lemma SameClone(venueMap: map<Id, Id>, delta: int, a: Slot, b: Slot)
    requires Injective(venueMap)
    requires a.venue.Some? ==> a.venue.value in venueMap
    requires b.venue.Some? ==> b.venue.value in venueMap
    requires CloneSlot(venueMap, delta, a) == CloneSlot(venueMap, delta, b)
    ensures a == b
  {}

  lemma CopiedAtOwnVenue(s: Snapshot, t: Snapshot, venueMap: map<Id, Id>, zoneMap: map<Id, Id>, delta: int, low: Id,
                         venues: map<Id, Id>, zones: map<Id, Id>, slot: Slot)
    requires CopyFacts(s, t, venueMap, zoneMap, delta, low) && ShiftedCopy(s, t, venues, zones, delta)
    requires slot in s.schedules && slot.venue.Some?
    ensures slot.venue.value in s.venues
  {
    var image := Mover(venues, delta)(slot);
    assert t.schedules[image] == s.schedules[slot];
    assert image in t.schedules;
    assert image.venue == Renamed(venues, slot.venue);
  }

  lemma CopiedIsOwnOnly(s: Snapshot, t: Snapshot, venueMap: map<Id, Id>, zoneMap: map<Id, Id>, delta: int, low: Id,
                        venues: map<Id, Id>, zones: map<Id, Id>)
    requires CopyFacts(s, t, venueMap, zoneMap, delta, low)
    requires ShiftedCopy(s, t, venues, zones, delta)
    ensures OwnOnly(s)
  {
    forall v | v in s.venues ensures !s.venues[v].shared {
      assert venues[v] in venues.Values;
    }
    forall slot | slot in s.schedules && slot.venue.Some? ensures slot.venue.value in s.venues {
      CopiedAtOwnVenue(s, t, venueMap, zoneMap, delta, low, venues, zones, slot);
    }
    forall k, i | k in s.policies && 0 <= i < |s.policies[k].allowed| ensures s.policies[k].allowed[i] in s.zones {
      AllowedIsRenamed(zoneMap, s.policies[k].allowed);
      assert t.policies[k] == MovePolicy(zones, delta, s.policies[k]);
    }
  }

  /** A successful clone is a faithful copy exactly when the source keeps to its own venues and zones: a shared venue is
      not listed again, an item at another event's venue loses it, an unknown zone is dropped from a policy. */
  lemma CopyIffOwnOnly(s: Snapshot, t: Snapshot, venueMap: map<Id, Id>, zoneMap: map<Id, Id>, delta: int, low: Id)
    requires CopyFacts(s, t, venueMap, zoneMap, delta, low)
    ensures IsShiftedCopy(s, t, delta) <==> OwnOnly(s)
  {
    if OwnOnly(s) {
      OwnOnlyIsCopied(s, t, venueMap, zoneMap, delta, low);
    }
    if IsShiftedCopy(s, t, delta) {
      var venues, zones :| ShiftedCopy(s, t, venues, zones, delta);
      CopiedIsOwnOnly(s, t, venueMap, zoneMap, delta, low, venues, zones);
    }
  }

  /* ---- Putting the steps together ---- */

  ghost predicate KeptKeys<T>(before: map<Id, T>, after: map<Id, T>, event: Id) {
    forall k | k != event :: (k in after <==> k in before) && (k in before && k in after ==> after[k] == before[k])
  }

  ghost predicate SameFor(before: Store, after: Store, e: Id) {
    && ConfigOf(after.configs, e) == ConfigOf(before.configs, e) && TableOf(after.schemas, e) == TableOf(before.schemas, e)
    && VenuesOf(after.venues, e) == VenuesOf(before.venues, e) && SlotsOf(after.items, e) == SlotsOf(before.items, e)
    && ZonesOf(after.zones, e) == ZonesOf(before.zones, e) && PoliciesOf(after.policies, e) == PoliciesOf(before.policies, e)
  }

  /** Every row there was is still there unchanged, and every new one belongs to the event. */
  ghost predicate OnlyNewRows(before: Store, after: Store, event: Id) {
    && (forall v | v in before.venues :: v in after.venues && after.venues[v] == before.venues[v])
    && (forall v | v in after.venues && v !in before.venues :: after.venues[v].event == event)
    && (forall z | z in before.zones :: z in after.zones && after.zones[z] == before.zones[z])
    && (forall z | z in after.zones && z !in before.zones :: after.zones[z].event == event)
    && before.items <= after.items
    && (forall k | |before.items| <= k < |after.items| :: after.items[k].event == event && after.items[k].status == Scheduled)
    && KeptKeys(before.configs, after.configs, event) && KeptKeys(before.schemas, after.schemas, event)
    && KeptKeys(before.policies, after.policies, event)
  }

  /** The new event holds what the steps of a clone establish, for some maps of venues and zones: it is a faithful copy
      moved to its start date exactly when the source keeps to its own venues and zones; no other event changes. */
  ghost predicate IsClone(before: Store, after: Store, s: Snapshot, event: Id, start: int, end: int) {
    && event !in before.events && after.events == before.events[event := Event(start, end, false)]
    && FollowsSnapshot(s, SnapshotOf(after, event), start - s.sourceStart)
    && (IsShiftedCopy(s, SnapshotOf(after, event), start - s.sourceStart) <==> OwnOnly(s))
    && OnlyNewRows(before, after, event)
    && (forall k | k in TableOf(after.policies, event) :: TableOf(after.policies, event)[k].validDates.None?)
    && forall e {:trigger SameFor(before, after, e)} | e != event :: SameFor(before, after, e)
  }

  /** The event row, its configuration and its field schemas exist; nothing else of it does. */
  ghost predicate Started(before: Store, now: Store, s: Snapshot, event: Id, delta: int, low: Id) {
    && KnownVenues(s, low) && Backed(before, event) && event < low
    && event in now.events && now.events[event].start == s.sourceStart + delta && !now.events[event].deleted
    && now.events == before.events[event := now.events[event]]
    && ConfigOf(now.configs, event) == ShiftConfig(s.config, delta) && TableOf(now.schemas, event) == s.schemas
    && KeptKeys(before.configs, now.configs, event) && KeptKeys(before.schemas, now.schemas, event)
    && now.venues == before.venues && now.items == before.items && now.zones == before.zones && now.policies == before.policies
  }

  lemma SnapshotKnowsVenues(s: Store, e: Id, nextId: Id)
    requires Backed(s, nextId) && e in s.events
    ensures KnownVenues(SnapshotOf(s, e), nextId)
  {
    forall slot | slot in SlotsOf(s.items, e) && slot.venue.Some? ensures slot.venue.value < nextId {
      SlotsOfMember(s.items, e, slot);
      var k :| 0 <= k < |s.items| && s.items[k].slot == slot && s.items[k].event == e;
      assert s.items[k] in s.items;
    }
  }

  lemma BackedClone(before: Store, after: Store, event: Id, low: Id, middle: Id, high: Id, top: Id,
                    list: map<Id, VenueCopy>, venueMap: map<Id, Id>, venueOrigin: map<Id, Id>, added: seq<Item>,
                    zoneList: map<Id, ZoneCopy>, zoneMap: map<Id, Id>, zoneOrigin: map<Id, Id>)
    requires Backed(before, event) && event < low <= middle <= high <= top
    requires after.events.Keys == before.events.Keys + {event}
    requires KeptKeys(before.configs, after.configs, event) && KeptKeys(before.schemas, after.schemas, event)
    requires VenuesCopied(list, venueMap, venueOrigin, event, low, middle, before.venues, after.venues)
    requires after.items == before.items + added
    requires forall item | item in added :: item.id < high && item.event == event
               && (item.slot.venue.Some? ==> item.slot.venue.value in venueMap.Values)
    requires ZonesCopied(zoneList, zoneMap, zoneOrigin, event, high, top, before.zones, after.zones)
    requires KeptKeys(before.policies, after.policies, event)
    ensures Backed(after, top)
  {
    VenueMapRange(list, venueMap, venueOrigin, event, low, middle, before.venues, after.venues);
  }

  lemma CopyEstablished(before: Store, after: Store, s: Snapshot, event: Id, delta: int,
                      low: Id, middle: Id, high: Id, top: Id, venueMap: map<Id, Id>, venueOrigin: map<Id, Id>, added: seq<Item>,
                      zoneMap: map<Id, Id>, zoneOrigin: map<Id, Id>)
    requires Backed(before, event) && KnownVenues(s, low) && low <= middle
    requires event in after.events && after.events[event].start == s.sourceStart + delta
    requires ConfigOf(after.configs, event) == ShiftConfig(s.config, delta) && TableOf(after.schemas, event) == s.schemas
    requires VenuesCopied(s.venues, venueMap, venueOrigin, event, low, middle, before.venues, after.venues)
    requires after.items == before.items + added && ItemsCopied(s.schedules, event, venueMap, delta, added)
    requires ZonesCopied(s.zones, zoneMap, zoneOrigin, event, high, top, before.zones, after.zones)
    requires PoliciesOf(after.policies, event) == map k | k in s.policies :: CopyPolicy(ClonePolicy(zoneMap, delta, s.policies[k]))
    ensures CopyFacts(s, SnapshotOf(after, event), venueMap, zoneMap, delta, low)
    ensures VenuesFollow(s.venues, VenuesOf(after.venues, event), venueMap)
  {
    VenuesRenamed(s.venues, venueMap, venueOrigin, event, low, middle, before.venues, after.venues);
    VenueMapRange(s.venues, venueMap, venueOrigin, event, low, middle, before.venues, after.venues);
    ZonesRenamed(s.zones, zoneMap, zoneOrigin, event, high, top, before.zones, after.zones);
    ItemsOfOthers(before.items, added, event);
    AddedVenues(s.schedules, event, venueMap, delta, added);
  }

  lemma CopyAssembled(before: Store, after: Store, s: Snapshot, event: Id, delta: int,
                      low: Id, middle: Id, high: Id, top: Id, venueMap: map<Id, Id>, venueOrigin: map<Id, Id>, added: seq<Item>,
                      zoneMap: map<Id, Id>, zoneOrigin: map<Id, Id>)
    requires Backed(before, event) && KnownVenues(s, low) && low <= middle
    requires event in after.events && after.events[event].start == s.sourceStart + delta
    requires ConfigOf(after.configs, event) == ShiftConfig(s.config, delta) && TableOf(after.schemas, event) == s.schemas
    requires VenuesCopied(s.venues, venueMap, venueOrigin, event, low, middle, before.venues, after.venues)
    requires after.items == before.items + added && ItemsCopied(s.schedules, event, venueMap, delta, added)
    requires ZonesCopied(s.zones, zoneMap, zoneOrigin, event, high, top, before.zones, after.zones)
    requires PoliciesOf(after.policies, event) == map k | k in s.policies :: CopyPolicy(ClonePolicy(zoneMap, delta, s.policies[k]))
    ensures FollowsSnapshot(s, SnapshotOf(after, event), delta)
    ensures IsShiftedCopy(s, SnapshotOf(after, event), delta) <==> OwnOnly(s)
  {
    CopyEstablished(before, after, s, event, delta, low, middle, high, top, venueMap, venueOrigin, added, zoneMap, zoneOrigin);
    FollowedBy(s, SnapshotOf(after, event), venueMap, zoneMap, delta, low);
    CopyIffOwnOnly(s, SnapshotOf(after, event), venueMap, zoneMap, delta, low);
  }

  /** What the steps of a clone have done one after the other: event, venues, items, zones and policies. */
  ghost predicate AllCopied(before: Store, started: Store, after: Store, s: Snapshot, event: Id, delta: int,
                            low: Id, middle: Id, high: Id, top: Id, venueMap: map<Id, Id>, venueOrigin: map<Id, Id>,
                            added: seq<Item>, zoneMap: map<Id, Id>, zoneOrigin: map<Id, Id>) {
    && Started(before, started, s, event, delta, low) && low <= middle <= high <= top
    && after.events == started.events && after.configs == started.configs && after.schemas == started.schemas
    && VenuesCopied(s.venues, venueMap, venueOrigin, event, low, middle, before.venues, after.venues)
    && after.items == before.items + added && ItemsCopied(s.schedules, event, venueMap, delta, added)
    && (forall item | item in added :: item.id < high)
    && ZonesCopied(s.zones, zoneMap, zoneOrigin, event, high, top, before.zones, after.zones)
    && PoliciesOf(after.policies, event) == (map k | k in s.policies :: CopyPolicy(ClonePolicy(zoneMap, delta, s.policies[k])))
    && (forall k | k in TableOf(after.policies, event) :: TableOf(after.policies, event)[k].validDates.None?)
    && KeptKeys(before.policies, after.policies, event)
  }

  lemma BackedAfter(before: Store, started: Store, after: Store, s: Snapshot, event: Id, delta: int,
                    low: Id, middle: Id, high: Id, top: Id, venueMap: map<Id, Id>, venueOrigin: map<Id, Id>, added: seq<Item>,
                    zoneMap: map<Id, Id>, zoneOrigin: map<Id, Id>)
    requires AllCopied(before, started, after, s, event, delta, low, middle, high, top, venueMap, venueOrigin, added, zoneMap, zoneOrigin)
    ensures Backed(after, top)
  {
    AddedItems(s.schedules, event, venueMap, delta, added);
    BackedClone(before, after, event, low, middle, high, top, s.venues, venueMap, venueOrigin, added, s.zones, zoneMap, zoneOrigin);
  }

  lemma EventOfClone(before: Store, started: Store, s: Snapshot, event: Id, delta: int, low: Id)
    requires Started(before, started, s, event, delta, low)
    ensures event !in before.events && event in started.events
    ensures started.events == before.events[event := Event(s.sourceStart + delta, started.events[event].end, false)]
  {}

  lemma Assemble(before: Store, started: Store, after: Store, s: Snapshot, event: Id, delta: int,
                 low: Id, middle: Id, high: Id, top: Id, venueMap: map<Id, Id>, venueOrigin: map<Id, Id>, added: seq<Item>,
                 zoneMap: map<Id, Id>, zoneOrigin: map<Id, Id>)
    requires AllCopied(before, started, after, s, event, delta, low, middle, high, top, venueMap, venueOrigin, added, zoneMap, zoneOrigin)
    ensures IsClone(before, after, s, event, s.sourceStart + delta, started.events[event].end)
  {
    EventOfClone(before, started, s, event, delta, low);
    CopyAssembled(before, after, s, event, delta, low, middle, high, top, venueMap, venueOrigin, added, zoneMap, zoneOrigin);
    AddedItems(s.schedules, event, venueMap, delta, added);
    OnlyRowsOfClone(before, after, s, event, low, middle, high, top, venueMap, venueOrigin, added, zoneMap, zoneOrigin);
    OtherEvents(before, after, s, event, low, middle, high, top, venueMap, venueOrigin, added, zoneMap, zoneOrigin);
  }

  lemma OnlyRowsOfClone(before: Store, after: Store, s: Snapshot, event: Id, low: Id, middle: Id, high: Id, top: Id,
                        venueMap: map<Id, Id>, venueOrigin: map<Id, Id>, added: seq<Item>,
                        zoneMap: map<Id, Id>, zoneOrigin: map<Id, Id>)
    requires KeptKeys(before.configs, after.configs, event) && KeptKeys(before.schemas, after.schemas, event)
    requires VenuesCopied(s.venues, venueMap, venueOrigin, event, low, middle, before.venues, after.venues)
    requires after.items == before.items + added
    requires forall k | 0 <= k < |added| :: added[k].event == event && added[k].status == Scheduled
    requires ZonesCopied(s.zones, zoneMap, zoneOrigin, event, high, top, before.zones, after.zones)
    requires KeptKeys(before.policies, after.policies, event)
    ensures OnlyNewRows(before, after, event)
  {
    forall k | |before.items| <= k < |after.items| ensures after.items[k] == added[k - |before.items|] {}
  }

  lemma OtherEvents(before: Store, after: Store, s: Snapshot, event: Id, low: Id, middle: Id, high: Id, top: Id,
                    venueMap: map<Id, Id>, venueOrigin: map<Id, Id>, added: seq<Item>,
                    zoneMap: map<Id, Id>, zoneOrigin: map<Id, Id>)
    requires KeptKeys(before.configs, after.configs, event) && KeptKeys(before.schemas, after.schemas, event)
    requires VenuesCopied(s.venues, venueMap, venueOrigin, event, low, middle, before.venues, after.venues)
    requires after.items == before.items + added && forall k | 0 <= k < |added| :: added[k].event == event
    requires ZonesCopied(s.zones, zoneMap, zoneOrigin, event, high, top, before.zones, after.zones)
    requires KeptKeys(before.policies, after.policies, event)
    ensures forall e {:trigger SameFor(before, after, e)} | e != event :: SameFor(before, after, e)
  {
    forall e | e != event ensures SameFor(before, after, e) {
      OtherEvent(before, after, s, event, low, middle, high, top, venueMap, venueOrigin, added, zoneMap, zoneOrigin, e);
    }
  }

  lemma OtherEvent(before: Store, after: Store, s: Snapshot, event: Id, low: Id, middle: Id, high: Id, top: Id,
                   venueMap: map<Id, Id>, venueOrigin: map<Id, Id>, added: seq<Item>,
                   zoneMap: map<Id, Id>, zoneOrigin: map<Id, Id>, e: Id)
    requires e != event
    requires KeptKeys(before.configs, after.configs, event) && KeptKeys(before.schemas, after.schemas, event)
    requires VenuesCopied(s.venues, venueMap, venueOrigin, event, low, middle, before.venues, after.venues)
    requires after.items == before.items + added && forall k | 0 <= k < |added| :: added[k].event == event
    requires ZonesCopied(s.zones, zoneMap, zoneOrigin, event, high, top, before.zones, after.zones)
    requires KeptKeys(before.policies, after.policies, event)
    ensures SameFor(before, after, e)
  {
    SlotsOfConcat(before.items, added, e);
    SlotsOfNone(added, e);
    OtherVenues(s.venues, venueMap, venueOrigin, event, low, middle, before.venues, after.venues, e);
    OtherZones(s.zones, zoneMap, zoneOrigin, event, high, top, before.zones, after.zones, e);
    assert TableOf(after.policies, e) == TableOf(before.policies, e);
  }

  lemma OtherVenues(list: map<Id, VenueCopy>, venueMap: map<Id, Id>, origin: map<Id, Id>, event: Id, low: Id, high: Id,
                    before: map<Id, Venue>, after: map<Id, Venue>, e: Id)
    requires VenuesCopied(list, venueMap, origin, event, low, high, before, after) && e != event
    ensures VenuesOf(after, e) == VenuesOf(before, e)
  {}

  lemma OtherZones(list: map<Id, ZoneCopy>, zoneMap: map<Id, Id>, origin: map<Id, Id>, event: Id, low: Id, high: Id,
                   before: map<Id, Zone>, after: map<Id, Zone>, e: Id)
    requires ZonesCopied(list, zoneMap, origin, event, low, high, before, after) && e != event
    ensures ZonesOf(after, e) == ZonesOf(before, e)
  {}
}
