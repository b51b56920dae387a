/** When booking transactions can wait for each other in a circle. */
module ScheduleWaits {
  import opened Common
  import opened Digraph
  import opened Scheduling
  import opened ScheduleLocks

  /** The next advisory lock, or the row, that a transaction needs is held by another one. */
  predicate WaitsFor(h: Hashes, s: System, t: Tx, u: Tx) {
    && t in s.sessions && u in s.sessions && t != u
    && match s.sessions[t].phase
       case Locking(b, n) => n < |Keys(h, b.item.slot)| && Keys(h, b.item.slot)[n] in s.sessions[u].held
       case Checked(b) => b.item.id in s.sessions[u].pending
       case _ => false
  }

  function WaitsGraph(h: Hashes, s: System): (Tx, Tx) -> bool {
    (t: Tx, u: Tx) => WaitsFor(h, s, t, u)
  }

  ghost predicate Stuck(h: Hashes, s: System) {
    !Acyclic(WaitsGraph(h, s))
  }

  lemma MutualWait(h: Hashes, s: System, t: Tx, u: Tx)
    requires WaitsFor(h, s, t, u) && WaitsFor(h, s, u, t)
    ensures Stuck(h, s)
  {
    assert WaitsGraph(h, s)(t, u) && WaitsGraph(h, s)(u, t);
    assert IsCycle(WaitsGraph(h, s), [t, u, t]);
  }

  /* ---- One booking each ---- */

  /** Every transaction makes one booking. */
  predicate SingleBookings(states: seq<System>, steps: seq<Step>) {
    |states| > |steps| && forall k | 0 <= k < |steps| && steps[k].Start? ::
      steps[k].tx in states[k].sessions && states[k].sessions[steps[k].tx] == IDLE
  }

  ghost predicate SingleCircle(h: Hashes, states: seq<System>, steps: seq<Step>) {
    IsRun(h, states, steps) && Initial(states[0]) && SingleBookings(states, steps) && Stuck(h, states[|steps|])
  }

  ghost predicate SingleCanCircle(h: Hashes) {
    exists states, steps :: SingleCircle(h, states, steps)
  }

  /** A venue and a resource have the same lock. */
  predicate Shared(h: Hashes, venue: Id, resource: string) {
    resource != "" && h.ofVenue(venue) == h.ofResource(resource)
  }

  ghost predicate IsShared(h: Hashes, key: LockKey) {
    exists v, r :: Shared(h, v, r) && h.ofVenue(v) == key
  }

  ghost predicate TwoSharedKeys(h: Hashes) {
    exists k, l :: IsShared(h, k) && IsShared(h, l) && k != l
  }

  /** While it locks, a transaction holds exactly the locks of its one booking that it has taken so far. */
  predicate OnlyTaken(h: Hashes, session: Session) {
    && (Books(session.phase) ==> session.pending == map[])
    && (session.phase.Locking? ==>
        var keys := Keys(h, session.phase.booking.item.slot);
        session.phase.taken <= |keys| && session.held == set k | 0 <= k < session.phase.taken :: keys[k])
  }

  lemma LockTakes(h: Hashes, session: Session)
    requires OnlyTaken(h, session) && session.phase.Locking?
    requires session.phase.taken < |Keys(h, session.phase.booking.item.slot)|
    ensures OnlyTaken(h, WithLock(session, Keys(h, session.phase.booking.item.slot)[session.phase.taken]))
  {}

  lemma {:induction false} RunKeepsOnlyTaken(h: Hashes, states: seq<System>, steps: seq<Step>, k: nat)
    requires IsRun(h, states, steps) && Initial(states[0]) && SingleBookings(states, steps) && k < |states|
    ensures forall t | t in states[k].sessions :: OnlyTaken(h, states[k].sessions[t])
  {
    if k > 0 {
      RunKeepsOnlyTaken(h, states, steps, k - 1);
      var s, step := states[k - 1], steps[k - 1];
      assert states[(k - 1) + 1] == Next(h, s, step);
      if step.Lock? {
        LockTakes(h, s.sessions[step.tx]);
      }
    }
  }

  /** How far a waiting transaction has come: no lock, one lock, one that is a venue's and a resource's, all locks. */
  ghost function Stage(h: Hashes, session: Session): nat {
    match session.phase
    case Locking(b, n) =>
      if n == 0 then 0
      else if n == 1 && |Keys(h, b.item.slot)| > 0 then (if IsShared(h, Keys(h, b.item.slot)[0]) then 2 else 1)
      else 3
    case _ => 3
  }

  /** With at most one shared key, whoever is waited for while waiting itself has come further. */
  lemma StageGrows(h: Hashes, s: System, t: Tx, u: Tx, v: Tx)
    requires Exclusive(s) && !TwoSharedKeys(h) && forall t | t in s.sessions :: OnlyTaken(h, s.sessions[t])
    requires WaitsFor(h, s, t, u) && WaitsFor(h, s, u, v)
    ensures Stage(h, s.sessions[t]) < Stage(h, s.sessions[u])
  {
    assert OnlyTaken(h, s.sessions[t]) && OnlyTaken(h, s.sessions[u]);
    if s.sessions[u].phase.Locking? {
      var slot, n := s.sessions[t].phase.booking.item.slot, s.sessions[t].phase.taken;
      if n == 1 {
        assert Shared(h, s.sessions[u].phase.booking.item.slot.venue.value, slot.resource.value);
        assert IsShared(h, Keys(h, slot)[1]);
        assert Keys(h, slot)[0] in s.sessions[t].held && Keys(h, slot)[1] in s.sessions[u].held;
      }
    }
  }

  lemma OneSharedKeyNeverCircles(h: Hashes, states: seq<System>, steps: seq<Step>)
    requires IsRun(h, states, steps) && Initial(states[0]) && SingleBookings(states, steps) && !TwoSharedKeys(h)
    ensures !Stuck(h, states[|steps|])
  {
    var s := states[|steps|];
    RunKeepsOnlyTaken(h, states, steps, |steps|);
    RunKeepsExclusive(h, states, steps, |steps|);
    var stage: Tx -> nat := t => if t in s.sessions then Stage(h, s.sessions[t]) else 0;
    forall t, u, v | WaitsGraph(h, s)(t, u) && WaitsGraph(h, s)(u, v) ensures stage(t) < stage(u) {
      StageGrows(h, s, t, u, v);
    }
    GrowingIsAcyclic(WaitsGraph(h, s), stage);
  }

  /** Two bookings whose venue is the other's resource, as far as the locks can tell. */
  lemma CrossedBookings(h: Hashes, v: Id, r: string, w: Id, q: string) returns (states: seq<System>, steps: seq<Step>)
    requires Shared(h, v, r) && Shared(h, w, q) && h.ofVenue(v) != h.ofVenue(w)
    ensures SingleCircle(h, states, steps)
  {
    var one := Item(1, 0, Slot(Some(v), "", Some(0), Some(1), Some(q), None), Scheduled);
    var two := Item(2, 0, Slot(Some(w), "", Some(0), Some(1), Some(r), None), Scheduled);
    var k, l := h.ofVenue(v), h.ofVenue(w);
    assert Keys(h, one.slot) == [k, l] && Keys(h, two.slot) == [l, k];
    var s0 := System({0}, {0}, map[], map[1 := IDLE, 2 := IDLE]);
    var s1 := Next(h, s0, Start(1, one));
    var s2 := Next(h, s1, Lock(1));
    var s3 := Next(h, s2, Start(2, two));
    var s4 := Next(h, s3, Lock(2));
    states, steps := [s0, s1, s2, s3, s4], [Start(1, one), Lock(1), Start(2, two), Lock(2)];
    assert s4.sessions[1] == Session(Locking(Booking(one, None), 1), {k}, map[]);
    assert s4.sessions[2] == Session(Locking(Booking(two, None), 1), {l}, map[]);
    MutualWait(h, s4, 1, 2);
  }

  /** Transactions that make one booking each can wait in a circle exactly when two different locks each belong to both a
      venue and a resource. */
  lemma SingleBookingsCircle(h: Hashes)
    ensures SingleCanCircle(h) <==> TwoSharedKeys(h)
  {
    if SingleCanCircle(h) && !TwoSharedKeys(h) {
      var states, steps :| SingleCircle(h, states, steps);
      OneSharedKeyNeverCircles(h, states, steps);
      assert false;
    }
    if TwoSharedKeys(h) {
      var k, l :| IsShared(h, k) && IsShared(h, l) && k != l;
      var v, r :| Shared(h, v, r) && h.ofVenue(v) == k;
      var w, q :| Shared(h, w, q) && h.ofVenue(w) == l;
      var states, steps := CrossedBookings(h, v, r, w, q);
    }
  }

  /* ---- Several bookings ---- */

  ghost predicate Circle(h: Hashes, states: seq<System>, steps: seq<Step>) {
    IsRun(h, states, steps) && Initial(states[0]) && OwnItems(states, steps) && Stuck(h, states[|steps|])
  }

  ghost predicate CanCircle(h: Hashes) {
    exists states, steps :: Circle(h, states, steps)
  }

  ghost predicate IsKey(h: Hashes, key: LockKey) {
    exists slot :: key in Keys(h, slot)
  }

  ghost predicate TwoKeys(h: Hashes) {
    exists k, l :: IsKey(h, k) && IsKey(h, l) && k != l
  }

  /** Transactions with items of their own wait for advisory locks alone. */
  lemma WaitsForLock(h: Hashes, s: System, t: Tx, u: Tx)
    requires WorkApart(s) && WaitsFor(h, s, t, u)
    ensures s.sessions[t].phase.Locking?
  {
    if s.sessions[t].phase.Checked? {
      assert WorksOn(s.sessions[t], s.sessions[t].phase.booking.item.id);
      assert WorksOn(s.sessions[u], s.sessions[t].phase.booking.item.id);
    }
  }

  lemma OneKeyNeverCircles(h: Hashes, states: seq<System>, steps: seq<Step>)
    requires IsRun(h, states, steps) && Initial(states[0]) && OwnItems(states, steps) && !TwoKeys(h)
    ensures !Stuck(h, states[|steps|])
  {
    var s := states[|steps|];
    RunKeepsExclusive(h, states, steps, |steps|);
    RunKeepsWorkApart(h, states, steps, |steps|);
    forall t, u, v | WaitsGraph(h, s)(t, u) && WaitsGraph(h, s)(u, v) ensures false {
      WaitsForLock(h, s, t, u);
      WaitsForLock(h, s, u, v);
      var b, c := s.sessions[t].phase, s.sessions[u].phase;
      assert IsKey(h, Keys(h, b.booking.item.slot)[b.taken]) && IsKey(h, Keys(h, c.booking.item.slot)[c.taken]);
    }
    GrowingIsAcyclic(WaitsGraph(h, s), (t: Tx) => 0);
  }

  /** A slot with no other key. */
  function Sole(h: Hashes, slot: Slot, key: LockKey): Slot {
    if slot.venue.Some? && h.ofVenue(slot.venue.value) == key then Slot(slot.venue, "", Some(0), Some(1), None, None)
    else Slot(None, "", Some(0), Some(1), slot.resource, None)
  }

  lemma OwnMore(states: seq<System>, steps: seq<Step>, states': seq<System>, steps': seq<Step>)
    requires OwnItems(states, steps) && states <= states' && steps <= steps' && |states'| > |steps'|
    requires forall k | |steps| <= k < |steps'| && steps'[k].Start? :: Untouched(states'[k], steps'[k].item.id)
    ensures OwnItems(states', steps')
  {}

  /** A transaction books an item under one free key. */
  lemma BookNew(h: Hashes, states: seq<System>, steps: seq<Step>, tx: Tx, item: Item, key: LockKey)
    returns (states': seq<System>, steps': seq<Step>)
    requires IsRun(h, states, steps) && OwnItems(states, steps)
    requires Enabled(h, states[|steps|], Start(tx, item)) && states[|steps|].committed == map[]
    requires Keys(h, item.slot) == [key] && LockFree(states[|steps|], tx, key) && states[|steps|].sessions[tx] == IDLE
    ensures IsRun(h, states', steps') && OwnItems(states', steps') && states <= states'
    ensures states'[|steps'|] == With(states[|steps|], tx, Session(Idle, {key}, map[item.id := item]))
  {
    states', steps' := BookChecked(h, states, steps, tx, item);
    OneMore(h, states', steps', Write(tx));
    assert {} + {key} == {key};
    states', steps' := states' + [Next(h, states'[|steps'|], Write(tx))], steps' + [Write(tx)];
    OwnMore(states, steps, states', steps');
  }

  /** Both start a booking under the key the other one holds. */
  lemma BothStart(h: Hashes, states: seq<System>, steps: seq<Step>, one: Item, two: Item, k: LockKey, l: LockKey)
    returns (states': seq<System>, steps': seq<Step>)
    requires IsRun(h, states, steps) && OwnItems(states, steps) && one.id != two.id
    requires Enabled(h, states[|steps|], Start(1, one)) && Enabled(h, states[|steps|], Start(2, two))
    requires states[|steps|].committed == map[] && Keys(h, one.slot) == [l] && Keys(h, two.slot) == [k]
    requires k in states[|steps|].sessions[1].held && l in states[|steps|].sessions[2].held
    ensures IsRun(h, states', steps') && OwnItems(states', steps') && states <= states' && Stuck(h, states'[|steps'|])
  {
    OneMore(h, states, steps, Start(1, one));
    var s := Next(h, states[|steps|], Start(1, one));
    OneMore(h, states + [s], steps + [Start(1, one)], Start(2, two));
    states', steps' := states + [s] + [Next(h, s, Start(2, two))], steps + [Start(1, one)] + [Start(2, two)];
    OwnMore(states, steps, states', steps');
    MutualWait(h, states'[|steps'|], 1, 2);
  }

  /** Two transactions that book under two keys in opposite order. */
  lemma OppositeOrders(h: Hashes, a: Slot, b: Slot, k: LockKey, l: LockKey) returns (states: seq<System>, steps: seq<Step>)
    requires Keys(h, a) == [k] && Keys(h, b) == [l] && k != l
    ensures Circle(h, states, steps)
  {
    var s := System({0}, {0}, map[], map[1 := IDLE, 2 := IDLE]);
    states, steps := BookNew(h, [s], [], 1, Item(1, 0, a, Scheduled), k);
    states, steps := BookNew(h, states, steps, 2, Item(2, 0, b, Scheduled), l);
    states, steps := BothStart(h, states, steps, Item(3, 0, b, Scheduled), Item(4, 0, a, Scheduled), k, l);
  }

  /** Transactions with several bookings, as a clone makes them, can wait in a circle exactly when there are two different
      locks at all, whatever the hashes. */
  lemma SeveralBookingsCircle(h: Hashes)
    ensures CanCircle(h) <==> TwoKeys(h)
  {
    if CanCircle(h) && !TwoKeys(h) {
      var states, steps :| Circle(h, states, steps);
      OneKeyNeverCircles(h, states, steps);
      assert false;
    }
    if TwoKeys(h) {
      var k, l :| IsKey(h, k) && IsKey(h, l) && k != l;
      var a :| k in Keys(h, a);
      var b :| l in Keys(h, b);
      var states, steps := OppositeOrders(h, Sole(h, a, k), Sole(h, b, l), k, l);
    }
  }

  /* ---- A common order ---- */

  /** Locks held, and those still to be taken before the m-th key of the booking. */
  function Before(h: Hashes, session: Session, m: nat): set<LockKey>
    requires session.phase.Locking? && m <= |Keys(h, session.phase.booking.item.slot)|
  {
    session.held + set j | session.phase.taken <= j < m :: Keys(h, session.phase.booking.item.slot)[j]
  }

  predicate AfterAll(rank: LockKey -> nat, keys: set<LockKey>, key: LockKey) {
    forall k | k in keys :: rank(k) < rank(key)
  }

  /** Every key still to be taken is already held by then, or comes after all of those in the common order. */
  predicate Climbs(h: Hashes, rank: LockKey -> nat, session: Session)
    requires session.phase.Locking?
  {
    var keys := Keys(h, session.phase.booking.item.slot);
    forall m | session.phase.taken <= m < |keys| ::
      keys[m] in Before(h, session, m) || AfterAll(rank, Before(h, session, m), keys[m])
  }

  /** Every booking takes its new locks in one common order. */
  predicate InOrder(h: Hashes, rank: LockKey -> nat, states: seq<System>, steps: seq<Step>) {
    |states| > |steps| && forall k | 0 <= k < |steps| && steps[k].Start? ::
      var s := states[k + 1];
      steps[k].tx in s.sessions && s.sessions[steps[k].tx].phase.Locking? && Climbs(h, rank, s.sessions[steps[k].tx])
  }

  lemma LockClimbs(h: Hashes, rank: LockKey -> nat, session: Session)
    requires session.phase.Locking? && Climbs(h, rank, session)
    requires session.phase.taken < |Keys(h, session.phase.booking.item.slot)|
    ensures Climbs(h, rank, WithLock(session, Keys(h, session.phase.booking.item.slot)[session.phase.taken]))
  {
    var keys := Keys(h, session.phase.booking.item.slot);
    var after := WithLock(session, keys[session.phase.taken]);
    forall m | session.phase.taken + 1 <= m < |keys| ensures Before(h, after, m) == Before(h, session, m) {}
  }

  lemma {:induction false} RunKeepsClimbing(h: Hashes, rank: LockKey -> nat, states: seq<System>, steps: seq<Step>, k: nat)
    requires IsRun(h, states, steps) && Initial(states[0]) && InOrder(h, rank, states, steps) && k < |states|
    ensures forall t | t in states[k].sessions && states[k].sessions[t].phase.Locking? :: Climbs(h, rank, states[k].sessions[t])
  {
    if k > 0 {
      RunKeepsClimbing(h, rank, states, steps, k - 1);
      var s, step := states[k - 1], steps[k - 1];
      assert states[(k - 1) + 1] == Next(h, s, step);
      if step.Lock? {
        LockClimbs(h, rank, s.sessions[step.tx]);
      }
    }
  }

  function Awaited(h: Hashes, rank: LockKey -> nat, session: Session): nat {
    match session.phase
    case Locking(b, n) => if n < |Keys(h, b.item.slot)| then rank(Keys(h, b.item.slot)[n]) else 0
    case _ => 0
  }

  /** Whoever is waited for while waiting itself waits for a later lock. */
  lemma AwaitedGrows(h: Hashes, rank: LockKey -> nat, s: System, t: Tx, u: Tx, v: Tx)
    requires Exclusive(s) && WorkApart(s) && WaitsFor(h, s, t, u) && WaitsFor(h, s, u, v)
    requires s.sessions[u].phase.Locking? ==> Climbs(h, rank, s.sessions[u])
    ensures Awaited(h, rank, s.sessions[t]) < Awaited(h, rank, s.sessions[u])
  {
    WaitsForLock(h, s, t, u);
    WaitsForLock(h, s, u, v);
    var b, c := s.sessions[t].phase, s.sessions[u].phase;
    var key := Keys(h, c.booking.item.slot)[c.taken];
    assert Before(h, s.sessions[u], c.taken) == s.sessions[u].held;
    assert key in s.sessions[v].held && s.sessions[u].held !! s.sessions[v].held;
    assert AfterAll(rank, s.sessions[u].held, key);
    var mine := Keys(h, b.booking.item.slot)[b.taken];
    assert mine in s.sessions[u].held;
    assert rank(mine) < rank(key);
    assert Awaited(h, rank, s.sessions[t]) == rank(mine);
    assert Awaited(h, rank, s.sessions[u]) == rank(key);
  }

  /** Transactions with any number of bookings never wait in a circle when all take their locks in one common order. */
  lemma OrderedNeverCircle(h: Hashes, rank: LockKey -> nat, states: seq<System>, steps: seq<Step>, k: nat)
    requires IsRun(h, states, steps) && Initial(states[0]) && OwnItems(states, steps) && InOrder(h, rank, states, steps)
    requires k < |states|
    ensures Acyclic(WaitsGraph(h, states[k]))
  {
    var s := states[k];
    RunKeepsExclusive(h, states, steps, k);
    RunKeepsWorkApart(h, states, steps, k);
    RunKeepsClimbing(h, rank, states, steps, k);
    var awaited: Tx -> nat := t => if t in s.sessions then Awaited(h, rank, s.sessions[t]) else 0;
    forall t, u, v | WaitsGraph(h, s)(t, u) && WaitsGraph(h, s)(u, v) ensures awaited(t) < awaited(u) {
      AwaitedGrows(h, rank, s, t, u, v);
    }
    GrowingIsAcyclic(WaitsGraph(h, s), awaited);
  }
}
