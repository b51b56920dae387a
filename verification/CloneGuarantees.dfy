/** What a duplicated event holds, row by row and column by column. */
module CloneGuarantees {
  import opened Common
  import opened Scheduling
  import opened Cloning

  /** A time moved by the difference; no time stays none. */
  predicate Later(before: Option<int>, after: Option<int>, delta: int) {
    match (before, after)
    case (Some(x), Some(y)) => y == x + delta
    case (None, None) => true
    case _ => false
  }

  /** The item of the clone has the same title, resource and attendance, at the moved times and at the venue's copy. */
  predicate ItemMoved(was: Slot, copy: Slot, delta: int, venueMap: map<Id, Id>) {
    && copy.title == was.title && copy.resource == was.resource && copy.expected == was.expected
    && Later(was.start, copy.start, delta) && Later(was.end, copy.end, delta)
    && copy.venue == (if was.venue.Some? && was.venue.value in venueMap then Some(venueMap[was.venue.value]) else None)
  }

  predicate IsScheduled(items: seq<Item>, i: nat, event: Id) {
    i < |items| && items[i].event == event && items[i].status == Scheduled
  }

  function ScheduledAt(items: seq<Item>, event: Id): set<nat> {
    set i: nat | i < |items| && IsScheduled(items, i, event)
  }

  /** Every scheduled item of the source has its copy, every item of the clone is one, and there are as many. */
  ghost predicate ItemsMoved(before: seq<Item>, after: seq<Item>, source: Id, event: Id, delta: int, venueMap: map<Id, Id>) {
    && before <= after && (forall k: nat | |before| <= k < |after| :: IsScheduled(after, k, event))
    && (forall i: nat | IsScheduled(before, i, source) ::
          exists k: nat :: |before| <= k < |after| && ItemMoved(before[i].slot, after[k].slot, delta, venueMap))
    && (forall k: nat | |before| <= k < |after| ::
          exists i: nat :: IsScheduled(before, i, source) && ItemMoved(before[i].slot, after[k].slot, delta, venueMap))
    && |after| == |before| + |ScheduledAt(before, source)|
  }

  /** Every venue of the source that is not shared has a new venue like it; a shared one stands for itself. */
  ghost predicate VenuesMade(before: Store, after: Store, source: Id, event: Id, venueMap: map<Id, Id>) {
    && (forall v :: v in venueMap <==> v in before.venues && before.venues[v].event == source)
    && (forall v | v in venueMap && before.venues[v].shared :: venueMap[v] == v)
    && (forall v | v in venueMap && !before.venues[v].shared ::
          venueMap[v] in after.venues && venueMap[v] !in before.venues
          && after.venues[venueMap[v]] == Venue(event, false, before.venues[v].capacity, before.venues[v].availability,
                                                before.venues[v].description))
    && (forall v, w | v in venueMap && w in venueMap && venueMap[v] == venueMap[w] :: v == w)
    && (forall w | w in after.venues && w !in before.venues :: exists v :: v in venueMap && venueMap[v] == w)
  }

  ghost predicate ZonesMade(before: Store, after: Store, source: Id, event: Id, zoneMap: map<Id, Id>) {
    && (forall z :: z in zoneMap <==> z in before.zones && before.zones[z].event == source)
    && (forall z | z in zoneMap ::
          zoneMap[z] in after.zones && zoneMap[z] !in before.zones
          && after.zones[zoneMap[z]] == Zone(event, before.zones[z].code, before.zones[z].name, before.zones[z].active))
    && (forall z, w | z in zoneMap && w in zoneMap && zoneMap[z] == zoneMap[w] :: z == w)
    && (forall w | w in after.zones && w !in before.zones :: exists z :: z in zoneMap && zoneMap[z] == w)
  }

  /** The policy of the clone: moved dates, no list of valid dates, and the copies of the zones the source has. */
  predicate PolicyMoved(was: Policy, copy: Policy, delta: int, zoneMap: map<Id, Id>) {
    && copy.reentry == was.reentry && copy.maxEntries == was.maxEntries && copy.validDates == None
    && Later(was.from, copy.from, delta) && Later(was.until, copy.until, delta)
    && (forall z | z in was.allowed && z in zoneMap :: zoneMap[z] in copy.allowed)
    && (forall w | w in copy.allowed :: exists z :: z in was.allowed && z in zoneMap && zoneMap[z] == w)
    && ((forall z | z in was.allowed :: z in zoneMap) ==>
          |copy.allowed| == |was.allowed| && forall i | 0 <= i < |was.allowed| :: copy.allowed[i] == zoneMap[was.allowed[i]])
  }

  ghost predicate PoliciesMoved(before: Store, after: Store, source: Id, event: Id, delta: int, zoneMap: map<Id, Id>) {
    && (forall k :: (event in after.policies && k in after.policies[event])
                    <==> (source in before.policies && k in before.policies[source]))
    && (forall k | source in before.policies && k in before.policies[source] ::
          event in after.policies && k in after.policies[event]
          && PolicyMoved(before.policies[source][k], after.policies[event][k], delta, zoneMap))
  }

  /** The two deadlines are moved, everything else of the configuration is the same. */
  ghost predicate ConfigMoved(before: Store, after: Store, source: Id, event: Id, delta: int) {
    && (event in after.configs <==> source in before.configs)
    && (source in before.configs && event in after.configs ==>
        var was, copy := before.configs[source], after.configs[event];
        && copy.settings == was.settings && copy.details.Keys == was.details.Keys
        && forall k | k in was.details ::
             if (k == "registration_end_at" || k == "cancellation_deadline_at") && was.details[k].Instant?
             then copy.details[k] == Instant(was.details[k].at + delta) else copy.details[k] == was.details[k])
    && (forall k :: (event in after.schemas && k in after.schemas[event])
                    <==> (source in before.schemas && k in before.schemas[source]))
    && (forall k | source in before.schemas && k in before.schemas[source] && event in after.schemas && k in after.schemas[event] ::
          after.schemas[event][k] == before.schemas[source][k])
  }

  ghost predicate Duplicated(before: Store, after: Store, source: Id, event: Id, delta: int, venueMap: map<Id, Id>, zoneMap: map<Id, Id>) {
    && ItemsMoved(before.items, after.items, source, event, delta, venueMap) && VenuesMade(before, after, source, event, venueMap)
    && ZonesMade(before, after, source, event, zoneMap) && PoliciesMoved(before, after, source, event, delta, zoneMap)
    && ConfigMoved(before, after, source, event, delta)
  }

  /* ---- Items ---- */

  lemma {:induction false} ScheduledIsListed(items: seq<Item>, event: Id, i: nat)
    requires IsScheduled(items, i, event)
    ensures items[i].slot in SlotsOf(items, event)
  {
    if i < |items| - 1 {
      ScheduledIsListed(items[..|items| - 1], event, i);
    }
  }

  lemma {:induction false} AsManySlots(items: seq<Item>, event: Id)
    ensures |SlotsOf(items, event)| == |ScheduledAt(items, event)|
  {
    if items != [] {
      var init := items[..|items| - 1];
      var n: nat := |items| - 1;
      AsManySlots(init, event);
      assert ScheduledAt(items, event) == ScheduledAt(init, event) + (if IsScheduled(items, n, event) then {n} else {});
    }
  }

  lemma {:induction false} AllAddedListed(before: seq<Item>, after: seq<Item>, event: Id)
    requires before <= after && forall k | 0 <= k < |before| :: before[k].event != event
    requires forall k | |before| <= k < |after| :: after[k].event == event && after[k].status == Scheduled
    ensures |SlotsOf(after, event)| == |after| - |before|
  {
    if |after| == |before| {
      SlotsOfNone(after, event);
    } else {
      AllAddedListed(before, after[..|after| - 1], event);
    }
  }

  lemma {:induction false} CloneOfEach(venueMap: map<Id, Id>, delta: int, order: seq<Slot>, slot: Slot)
    requires slot in multiset(order)
    ensures CloneSlot(venueMap, delta, slot) in Clones(venueMap, delta, order)
  {
    var init, last := order[..|order| - 1], order[|order| - 1];
    assert order == init + [last];
    if slot != last {
      CloneOfEach(venueMap, delta, init, slot);
    }
  }

  lemma {:induction false} EachIsClone(venueMap: map<Id, Id>, delta: int, order: seq<Slot>, copy: Slot)
    requires copy in Clones(venueMap, delta, order)
    ensures exists slot :: slot in multiset(order) && CloneSlot(venueMap, delta, slot) == copy
  {
    var init, last := order[..|order| - 1], order[|order| - 1];
    assert order == init + [last];
    if copy != CloneSlot(venueMap, delta, last) {
      EachIsClone(venueMap, delta, init, copy);
      var slot :| slot in multiset(init) && CloneSlot(venueMap, delta, slot) == copy;
      assert slot in multiset(order);
    }
  }

  lemma {:induction false} AsManyClones(venueMap: map<Id, Id>, delta: int, order: seq<Slot>)
    ensures |Clones(venueMap, delta, order)| == |order|
  {
    if order != [] {
      AsManyClones(venueMap, delta, order[..|order| - 1]);
    }
  }

  lemma ClonedSlotMoved(venueMap: map<Id, Id>, delta: int, slot: Slot)
    ensures ItemMoved(slot, CloneSlot(venueMap, delta, slot), delta, venueMap)
  {}

  lemma HasCopy(before: seq<Item>, after: seq<Item>, source: Id, event: Id, delta: int, venueMap: map<Id, Id>, order: seq<Slot>, i: nat)
    returns (k: nat)
    requires multiset(order) == SlotsOf(before, source) && Clones(venueMap, delta, order) == SlotsOf(after, event)
    requires before <= after && (forall j | 0 <= j < |before| :: before[j].event != event) && IsScheduled(before, i, source)
    ensures |before| <= k < |after| && ItemMoved(before[i].slot, after[k].slot, delta, venueMap)
  {
    var slot := before[i].slot;
    ScheduledIsListed(before, source, i);
    CloneOfEach(venueMap, delta, order, slot);
    SlotsOfMember(after, event, CloneSlot(venueMap, delta, slot));
    k :| 0 <= k < |after| && after[k].slot == CloneSlot(venueMap, delta, slot) && after[k].event == event;
    ClonedSlotMoved(venueMap, delta, slot);
  }

  lemma IsCopy(before: seq<Item>, after: seq<Item>, source: Id, event: Id, delta: int, venueMap: map<Id, Id>, order: seq<Slot>, k: nat)
    returns (i: nat)
    requires multiset(order) == SlotsOf(before, source) && Clones(venueMap, delta, order) == SlotsOf(after, event)
    requires IsScheduled(after, k, event)
    ensures IsScheduled(before, i, source) && ItemMoved(before[i].slot, after[k].slot, delta, venueMap)
  {
    ScheduledIsListed(after, event, k);
    EachIsClone(venueMap, delta, order, after[k].slot);
    var slot :| slot in multiset(order) && CloneSlot(venueMap, delta, slot) == after[k].slot;
    SlotsOfMember(before, source, slot);
    i :| 0 <= i < |before| && before[i].slot == slot && before[i].event == source && before[i].status == Scheduled;
    ClonedSlotMoved(venueMap, delta, slot);
  }

  lemma ItemsAreMoved(before: seq<Item>, after: seq<Item>, source: Id, event: Id, delta: int, venueMap: map<Id, Id>)
    requires forall k | 0 <= k < |before| :: before[k].event != event
    requires AreClones(venueMap, delta, SlotsOf(before, source), SlotsOf(after, event))
    requires before <= after && forall k | |before| <= k < |after| :: after[k].event == event && after[k].status == Scheduled
    ensures ItemsMoved(before, after, source, event, delta, venueMap)
  {
    var order :| multiset(order) == SlotsOf(before, source) && Clones(venueMap, delta, order) == SlotsOf(after, event);
    forall i: nat | IsScheduled(before, i, source)
      ensures exists k: nat :: |before| <= k < |after| && ItemMoved(before[i].slot, after[k].slot, delta, venueMap)
    {
      var k := HasCopy(before, after, source, event, delta, venueMap, order, i);
    }
    forall k: nat | |before| <= k < |after|
      ensures exists i: nat :: IsScheduled(before, i, source) && ItemMoved(before[i].slot, after[k].slot, delta, venueMap)
    {
      var i := IsCopy(before, after, source, event, delta, venueMap, order, k);
    }
    AsManySlots(before, source);
    AsManyClones(venueMap, delta, order);
    assert |multiset(order)| == |order|;
    AllAddedListed(before, after, event);
  }

  /* ---- Venues, zones, policies and configuration ---- */

  lemma VenuesAreMade(before: Store, after: Store, source: Id, event: Id, venueMap: map<Id, Id>)
    requires source != event && OnlyNewRows(before, after, event) && forall v | v in before.venues :: before.venues[v].event != event
    requires VenuesFollow(VenuesOf(before.venues, source), VenuesOf(after.venues, event), venueMap)
    requires forall w | w in VenuesOf(after.venues, event) :: !VenuesOf(after.venues, event)[w].shared
    ensures VenuesMade(before, after, source, event, venueMap)
  {
    var list, copies := VenuesOf(before.venues, source), VenuesOf(after.venues, event);
    forall v | v in venueMap && !before.venues[v].shared
      ensures venueMap[v] in after.venues && venueMap[v] !in before.venues
      ensures after.venues[venueMap[v]]
              == Venue(event, false, before.venues[v].capacity, before.venues[v].availability, before.venues[v].description)
    {
      assert copies[venueMap[v]] == list[v];
    }
    forall w | w in after.venues && w !in before.venues ensures exists v :: v in venueMap && venueMap[v] == w {
      assert w in copies.Keys;
    }
  }

  lemma ZonesAreMade(before: Store, after: Store, source: Id, event: Id, zoneMap: map<Id, Id>)
    requires OnlyNewRows(before, after, event) && forall z | z in before.zones :: before.zones[z].event != event
    requires SameUnder(ZonesOf(before.zones, source), ZonesOf(after.zones, event), zoneMap)
    ensures ZonesMade(before, after, source, event, zoneMap)
  {
    forall z | z in zoneMap ensures zoneMap[z] in ZonesOf(after.zones, event) {
      assert zoneMap[z] in zoneMap.Values;
    }
    forall w | w in after.zones && w !in before.zones ensures exists z :: z in zoneMap && zoneMap[z] == w {
      assert w in ZonesOf(after.zones, event);
      assert w in zoneMap.Values;
    }
  }

  lemma {:induction false} AllowedZones(zoneMap: map<Id, Id>, ids: seq<Id>)
    ensures forall z | z in ids && z in zoneMap :: zoneMap[z] in CloneAllowed(zoneMap, ids)
    ensures forall w | w in CloneAllowed(zoneMap, ids) :: exists z :: z in ids && z in zoneMap && zoneMap[z] == w
  {
    if ids != [] {
      AllowedZones(zoneMap, ids[..|ids| - 1]);
      assert ids == ids[..|ids| - 1] + [ids[|ids| - 1]];
    }
  }

  lemma PolicyIsMoved(was: Policy, copy: Policy, delta: int, zoneMap: map<Id, Id>)
    requires CopyPolicy(copy) == CopyPolicy(ClonePolicy(zoneMap, delta, CopyPolicy(was))) && copy.validDates.None?
    ensures PolicyMoved(was, copy, delta, zoneMap)
  {
    AllowedZones(zoneMap, was.allowed);
    AllowedIsRenamed(zoneMap, was.allowed);
  }

  lemma PoliciesAreMoved(before: Store, after: Store, source: Id, event: Id, delta: int, zoneMap: map<Id, Id>)
    requires PoliciesOf(after.policies, event)
             == map k | k in PoliciesOf(before.policies, source) ::
                  CopyPolicy(ClonePolicy(zoneMap, delta, PoliciesOf(before.policies, source)[k]))
    requires forall k | k in TableOf(after.policies, event) :: TableOf(after.policies, event)[k].validDates.None?
    ensures PoliciesMoved(before, after, source, event, delta, zoneMap)
  {
    var list, copies := PoliciesOf(before.policies, source), PoliciesOf(after.policies, event);
    assert copies.Keys == list.Keys;
    forall k | k in list ensures PolicyMoved(before.policies[source][k], after.policies[event][k], delta, zoneMap) {
      assert k in copies && copies[k] == CopyPolicy(ClonePolicy(zoneMap, delta, list[k]));
      PolicyIsMoved(before.policies[source][k], after.policies[event][k], delta, zoneMap);
    }
  }

  lemma ConfigIsMoved(before: Store, after: Store, source: Id, event: Id, delta: int)
    requires ConfigOf(after.configs, event) == ShiftConfig(ConfigOf(before.configs, source), delta)
    requires TableOf(after.schemas, event) == TableOf(before.schemas, source)
    ensures ConfigMoved(before, after, source, event, delta)
  {}

  lemma DuplicateOf(before: Store, after: Store, source: Id, event: Id, delta: int, nextId: Id, venueMap: map<Id, Id>, zoneMap: map<Id, Id>, low: Id)
    requires Backed(before, nextId) && source in before.events && event !in before.events && event in after.events
    requires OnlyNewRows(before, after, event)
    requires forall k | k in TableOf(after.policies, event) :: TableOf(after.policies, event)[k].validDates.None?
    requires CopyFacts(SnapshotOf(before, source), SnapshotOf(after, event), venueMap, zoneMap, delta, low)
    requires VenuesFollow(VenuesOf(before.venues, source), VenuesOf(after.venues, event), venueMap)
    ensures Duplicated(before, after, source, event, delta, venueMap, zoneMap)
  {
    forall k | 0 <= k < |before.items| ensures before.items[k].event != event {
      assert before.items[k] in before.items;
    }
    ItemsAreMoved(before.items, after.items, source, event, delta, venueMap);
    VenuesAreMade(before, after, source, event, venueMap);
    ZonesAreMade(before, after, source, event, zoneMap);
    PoliciesAreMoved(before, after, source, event, delta, zoneMap);
    ConfigIsMoved(before, after, source, event, delta);
  }

  lemma MapsOf(s: Snapshot, t: Snapshot, delta: int) returns (venueMap: map<Id, Id>, zoneMap: map<Id, Id>, low: Id)
    requires FollowsSnapshot(s, t, delta)
    ensures CopyFacts(s, t, venueMap, zoneMap, delta, low) && VenuesFollow(s.venues, t.venues, venueMap)
  {
    venueMap, zoneMap, low :| CopyFacts(s, t, venueMap, zoneMap, delta, low) && VenuesFollow(s.venues, t.venues, venueMap);
  }

  lemma CloneMeans(before: Store, after: Store, s: Snapshot, event: Id, start: int, end: int, delta: int)
    requires IsClone(before, after, s, event, start, end) && delta == start - s.sourceStart
    ensures event !in before.events && event in after.events && OnlyNewRows(before, after, event)
    ensures FollowsSnapshot(s, SnapshotOf(after, event), delta)
    ensures after.events == before.events[event := Event(start, end, false)]
    ensures forall k | k in TableOf(after.policies, event) :: TableOf(after.policies, event)[k].validDates.None?
  {}

  /** For some maps of venues and zones, the event holds the copies of the source's rows. */
  ghost predicate IsDuplicate(before: Store, after: Store, source: Id, event: Id, delta: int) {
    exists venueMap, zoneMap :: Duplicated(before, after, source, event, delta, venueMap, zoneMap)
  }

  lemma FollowedIsDuplicate(before: Store, after: Store, s: Snapshot, source: Id, event: Id, delta: int, nextId: Id)
    requires Backed(before, nextId) && source in before.events && event !in before.events && event in after.events
    requires s == SnapshotOf(before, source) && OnlyNewRows(before, after, event)
    requires forall k | k in TableOf(after.policies, event) :: TableOf(after.policies, event)[k].validDates.None?
    requires FollowsSnapshot(s, SnapshotOf(after, event), delta)
    ensures IsDuplicate(before, after, source, event, delta)
  {
    var venueMap, zoneMap, low := MapsOf(s, SnapshotOf(after, event), delta);
    DuplicateOf(before, after, source, event, delta, nextId, venueMap, zoneMap, low);
  }

  /** A successful duplicate holds the copies of the source's rows, every date later by the difference of the starts. */
  lemma CloneIsDuplicate(before: Store, after: Store, s: Snapshot, source: Id, event: Id, start: int, end: int, delta: int, nextId: Id)
    requires Backed(before, nextId) && source in before.events && s == SnapshotOf(before, source)
    requires IsClone(before, after, s, event, start, end) && delta == start - before.events[source].start
    ensures IsDuplicate(before, after, source, event, delta) && OnlyNewRows(before, after, event)
    ensures after.events == before.events[event := Event(start, end, false)]
  {
    CloneMeans(before, after, s, event, start, end, delta);
    FollowedIsDuplicate(before, after, s, source, event, delta, nextId);
  }

  /** A clone fails on its details exactly when one of the two deadlines is neither empty nor a date. */
  lemma ShiftableMeans(details: map<string, Detail>)
    ensures !Shiftable(details) <==>
            ("registration_end_at" in details && details["registration_end_at"].Other?)
            || ("cancellation_deadline_at" in details && details["cancellation_deadline_at"].Other?)
  {}
}
