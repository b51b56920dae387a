/** Concurrent bookings: transactions that lock, check, write and commit, in every interleaving. */
module ScheduleLocks {
  import opened Common
  import opened Scheduling

  type Tx = nat
  type LockKey = int
  type Items = map<Id, Item>

  /** The advisory locks are 32-bit hashes of the scope names; distinct scopes may share one. */
  datatype Hashes = Hashes(ofVenue: Id -> LockKey, ofResource: string -> LockKey)

  /** Keys are taken in this order: the venue's, then the resource's. */
  function Keys(h: Hashes, slot: Slot): seq<LockKey> {
    (if slot.venue.Some? then [h.ofVenue(slot.venue.value)] else [])
    + (if HasKey(slot) then [h.ofResource(slot.resource.value)] else [])
  }

  /** A booking under way: the row wanted and, for an existing item, the slot read at the start. */
  datatype Booking = Booking(item: Item, read: Option<Slot>)

  datatype Phase =
    | Idle                                    // between bookings of the transaction
    | Locking(booking: Booking, taken: nat)   // waiting for the next advisory lock
    | Checked(booking: Booking)               // the overlap query returned nothing
    | Finished

  /** One transaction: where it is, the locks it holds until it ends, and the row versions only it can see. */
  datatype Session = Session(phase: Phase, held: set<LockKey>, pending: Items)

  /** Items by id; `known` are the events ever created, `live` those not deleted. */
  datatype System = System(known: set<Id>, live: set<Id>, committed: Items, sessions: map<Tx, Session>)

  const IDLE := Session(Idle, {}, map[])
  const FINISHED := Session(Finished, {}, map[])

  datatype Step =
    | Start(tx: Tx, item: Item)   // a new item, or an existing one with a new slot
    | Lock(tx: Tx)
    | Check(tx: Tx)
    | Write(tx: Tx)
    | Commit(tx: Tx)
    | Rollback(tx: Tx)
    | Cancel(id: Id)
    | Delete(id: Id)
    | EventMade(event: Id)
    | EventGone(event: Id)

  /** Rows a transaction reads: everything committed, with its own new versions. */
  function Visible(committed: Items, session: Session): Items {
    committed + session.pending
  }

  predicate NoConflict(live: set<Id>, slot: Slot, exclude: Option<Id>, items: Items) {
    forall i | i in items :: !Conflicts(live, slot, exclude, items[i])
  }

  predicate LockFree(s: System, tx: Tx, key: LockKey) {
    forall other | other in s.sessions && other != tx :: key !in s.sessions[other].held
  }

  /** No transaction has a new version of the row, so nobody holds its row lock. */
  predicate RowFree(s: System, id: Id) {
    forall t | t in s.sessions :: id !in s.sessions[t].pending
  }

  predicate Books(phase: Phase) {
    phase.Locking? || phase.Checked?
  }

  predicate WorksOn(session: Session, id: Id) {
    id in session.pending || (Books(session.phase) && session.phase.booking.item.id == id)
  }

  /** No transaction is booking the item. */
  predicate Untouched(s: System, id: Id) {
    forall t | t in s.sessions :: !WorksOn(s.sessions[t], id)
  }

  predicate NextKeyFree(h: Hashes, s: System, tx: Tx, phase: Phase)
    requires phase.Locking?
  {
    var keys := Keys(h, phase.booking.item.slot);
    phase.taken < |keys| && LockFree(s, tx, keys[phase.taken])
  }

  /** All locks are taken and the query finds nothing; a rescheduled item does not count. */
  predicate PassesCheck(h: Hashes, live: set<Id>, committed: Items, session: Session)
    requires session.phase.Locking?
  {
    var Booking(item, read) := session.phase.booking;
    && session.phase.taken == |Keys(h, item.slot)|
    && NoConflict(live, item.slot, if read.Some? then Some(item.id) else None, Visible(committed, session))
  }

  predicate Enabled(h: Hashes, s: System, step: Step) {
    match step
    case Start(tx, item) =>
      && tx in s.sessions && s.sessions[tx].phase == Idle && item.id !in s.sessions[tx].pending
      && if item.id in s.committed then
           s.committed[item.id].status != Cancelled && item == s.committed[item.id].(slot := item.slot)
         else Untouched(s, item.id) && item.event in s.known && item.status == Scheduled
    case Lock(tx) => tx in s.sessions && s.sessions[tx].phase.Locking? && NextKeyFree(h, s, tx, s.sessions[tx].phase)
    case Check(tx) =>
      tx in s.sessions && s.sessions[tx].phase.Locking? && PassesCheck(h, s.live, s.committed, s.sessions[tx])
    case Write(tx) =>
      && tx in s.sessions && s.sessions[tx].phase.Checked? && RowFree(s, s.sessions[tx].phase.booking.item.id)
      && (s.sessions[tx].phase.booking.read.Some? <==> s.sessions[tx].phase.booking.item.id in s.committed)
    case Commit(tx) => tx in s.sessions && s.sessions[tx].phase == Idle
    case Rollback(tx) => tx in s.sessions && s.sessions[tx].phase != Finished
    case Cancel(id) => id in s.committed && RowFree(s, id)
    case Delete(id) => id in s.committed && s.committed[id].status == Cancelled && RowFree(s, id)
    case EventMade(e) => e !in s.known
    case EventGone(e) => true
  }

  function With(s: System, tx: Tx, session: Session): System {
    s.(sessions := s.sessions[tx := session])
  }

  /** An update writes only the columns that differ from what was read. */
  function Merged(read: Slot, wanted: Slot, current: Slot): Slot {
    Slot(if wanted.venue == read.venue then current.venue else wanted.venue,
         if wanted.title == read.title then current.title else wanted.title,
         if wanted.start == read.start then current.start else wanted.start,
         if wanted.end == read.end then current.end else wanted.end,
         if wanted.resource == read.resource then current.resource else wanted.resource,
         if wanted.expected == read.expected then current.expected else wanted.expected)
  }

  function Written(committed: Items, booking: Booking): Item
    requires booking.read.Some? ==> booking.item.id in committed
  {
    if booking.read.None? then booking.item
    else
      var row := committed[booking.item.id];
      row.(slot := Merged(booking.read.value, booking.item.slot, row.slot))
  }

  function WithLock(session: Session, key: LockKey): Session
    requires session.phase.Locking?
  {
    session.(phase := Locking(session.phase.booking, session.phase.taken + 1), held := session.held + {key})
  }

  function Next(h: Hashes, s: System, step: Step): System
    requires Enabled(h, s, step)
  {
    match step
    case Start(tx, item) =>
      var read := if item.id in s.committed then Some(s.committed[item.id].slot) else None;
      With(s, tx, s.sessions[tx].(phase := Locking(Booking(item, read), 0)))
    case Lock(tx) =>
      var session := s.sessions[tx];
      With(s, tx, WithLock(session, Keys(h, session.phase.booking.item.slot)[session.phase.taken]))
    case Check(tx) => With(s, tx, s.sessions[tx].(phase := Checked(s.sessions[tx].phase.booking)))
    case Write(tx) =>
      var session, booking := s.sessions[tx], s.sessions[tx].phase.booking;
      With(s, tx, session.(phase := Idle, pending := session.pending[booking.item.id := Written(s.committed, booking)]))
    case Commit(tx) => With(s.(committed := Visible(s.committed, s.sessions[tx])), tx, FINISHED)
    case Rollback(tx) => With(s, tx, FINISHED)
    case Cancel(id) => s.(committed := s.committed[id := s.committed[id].(status := Cancelled)])
    case Delete(id) => s.(committed := s.committed - {id})
    case EventMade(e) => s.(known := s.known + {e}, live := s.live + {e})
    case EventGone(e) => s.(live := s.live - {e})
  }

  /* ---- Runs ---- */

  predicate IsRun(h: Hashes, states: seq<System>, steps: seq<Step>) {
    |states| == |steps| + 1
    && forall k | 0 <= k < |steps| :: Enabled(h, states[k], steps[k]) && states[k + 1] == Next(h, states[k], steps[k])
  }

  /** Every booking starts on an item that no transaction is working on. */
  predicate OwnItems(states: seq<System>, steps: seq<Step>) {
    |states| > |steps| && forall k | 0 <= k < |steps| && steps[k].Start? :: Untouched(states[k], steps[k].item.id)
  }

  predicate Filed(known: set<Id>, items: Items) {
    forall i | i in items :: items[i].id == i && items[i].event in known
  }

  predicate Disjoint(live: set<Id>, items: Items) {
    forall i, j | i in items && j in items && i != j :: !DoubleBooked(live, items[i], items[j])
  }

  /** Nothing double-booked yet, and no transaction has done anything. */
  predicate Initial(s: System) {
    && s.live <= s.known && Filed(s.known, s.committed) && Disjoint(s.live, s.committed)
    && forall t | t in s.sessions :: s.sessions[t] == IDLE
  }

  /** Advisory locks are exclusive. */
  predicate Exclusive(s: System) {
    forall t, u | t in s.sessions && u in s.sessions && t != u :: s.sessions[t].held !! s.sessions[u].held
  }

  lemma {:induction false} RunKeepsExclusive(h: Hashes, states: seq<System>, steps: seq<Step>, k: nat)
    requires IsRun(h, states, steps) && Initial(states[0]) && k < |states|
    ensures Exclusive(states[k])
  {
    if k > 0 {
      RunKeepsExclusive(h, states, steps, k - 1);
      assert states[(k - 1) + 1] == Next(h, states[k - 1], steps[k - 1]);
    }
  }

  /** No two transactions work on one item. */
  ghost predicate WorkApart(s: System) {
    forall t, u, id | t in s.sessions && u in s.sessions && WorksOn(s.sessions[t], id) && WorksOn(s.sessions[u], id) :: t == u
  }

  lemma StepKeepsWorkApart(h: Hashes, s: System, step: Step)
    requires WorkApart(s) && Enabled(h, s, step) && (step.Start? ==> Untouched(s, step.item.id))
    ensures WorkApart(Next(h, s, step))
  {}

  lemma {:induction false} RunKeepsWorkApart(h: Hashes, states: seq<System>, steps: seq<Step>, k: nat)
    requires IsRun(h, states, steps) && Initial(states[0]) && OwnItems(states, steps) && k < |states|
    ensures WorkApart(states[k])
  {
    if k > 0 {
      RunKeepsWorkApart(h, states, steps, k - 1);
      assert states[(k - 1) + 1] == Next(h, states[k - 1], steps[k - 1]);
      StepKeepsWorkApart(h, states[k - 1], steps[k - 1]);
    }
  }

  /* ---- The invariant ---- */

  /** No row conflicts with a new version of another one. */
  predicate Apart(live: set<Id>, some: Items, others: Items) {
    forall i, j | i in some && i !in others && j in others :: !DoubleBooked(live, some[i], others[j])
  }

  predicate Clear(live: set<Id>, items: Items, item: Item) {
    forall i | i in items && i != item.id :: !DoubleBooked(live, items[i], item)
  }

  predicate HoldsKeys(h: Hashes, session: Session, slot: Slot) {
    forall k | 0 <= k < |Keys(h, slot)| :: Keys(h, slot)[k] in session.held
  }

  /** A transaction holds the locks of every row version it has written and of what it has locked so far;
      a successful check stays true until the write. */
  predicate SessionOk(h: Hashes, live: set<Id>, committed: Items, session: Session) {
    && (forall i | i in session.pending :: HoldsKeys(h, session, session.pending[i].slot))
    && Disjoint(live, session.pending) && Apart(live, committed, session.pending)
    && match session.phase
       case Locking(b, n) =>
         n <= |Keys(h, b.item.slot)| && forall k | 0 <= k < n :: Keys(h, b.item.slot)[k] in session.held
       case Checked(b) => HoldsKeys(h, session, b.item.slot) && Clear(live, Visible(committed, session), b.item)
       case _ => true
  }

  /** What a transaction has read of the item it is booking is still there, up to its status. */
  predicate ReadOk(known: set<Id>, committed: Items, session: Session) {
    && Filed(known, session.pending)
    && (Books(session.phase) ==>
        var Booking(item, read) := session.phase.booking;
        && item.event in known && item.status != Cancelled && (read.None? ==> item.id !in committed)
        && (read.Some? && item.id in committed ==>
            committed[item.id].slot == read.value && committed[item.id].event == item.event))
  }

  ghost predicate Invariant(h: Hashes, s: System) {
    && s.live <= s.known && Filed(s.known, s.committed) && Disjoint(s.live, s.committed) && Exclusive(s) && WorkApart(s)
    && forall t | t in s.sessions ::
         ReadOk(s.known, s.committed, s.sessions[t]) && SessionOk(h, s.live, s.committed, s.sessions[t])
  }

  /** Two rows in one scope need a common lock. */
  lemma SameScopeSharesKey(h: Hashes, a: Slot, b: Slot)
    requires SameScope(a, b)
    ensures |Keys(h, a)| > 0 && Keys(h, a)[0] in Keys(h, b)
  {}

  /** Rows of different transactions are never double-booked: they would hold one lock twice. */
  lemma LockedApart(h: Hashes, live: set<Id>, t: Session, u: Session, a: Item, b: Item)
    requires t.held !! u.held && HoldsKeys(h, t, a.slot) && HoldsKeys(h, u, b.slot)
    ensures !DoubleBooked(live, a, b)
  {
    if SameScope(a.slot, b.slot) {
      SameScopeSharesKey(h, a.slot, b.slot);
    }
  }

  lemma BookedIsMutual(live: set<Id>, a: Item, b: Item)
    ensures DoubleBooked(live, a, b) <==> DoubleBooked(live, b, a)
  {
    SameScopeIsMutual(a.slot, b.slot);
    SameScopeIsMutual(b.slot, a.slot);
  }

  /* ---- Commit ---- */

  /** What a transaction commits does not disturb another one. */
  lemma CommitSpares(h: Hashes, live: set<Id>, committed: Items, t: Session, u: Session)
    requires SessionOk(h, live, committed, t) && SessionOk(h, live, committed, u) && t.held !! u.held
    ensures SessionOk(h, live, Visible(committed, t), u)
  {
    forall i, j | i in t.pending && j in u.pending ensures !DoubleBooked(live, t.pending[i], u.pending[j]) {
      LockedApart(h, live, t, u, t.pending[i], u.pending[j]);
    }
    assert Apart(live, Visible(committed, t), u.pending);
    if u.phase.Checked? {
      var item := u.phase.booking.item;
      forall i | i in t.pending ensures !DoubleBooked(live, t.pending[i], item) {
        LockedApart(h, live, t, u, t.pending[i], item);
      }
      forall i | i in Visible(Visible(committed, t), u) && i != item.id
        ensures !DoubleBooked(live, Visible(Visible(committed, t), u)[i], item)
      {
        assert i in u.pending || i !in t.pending ==> i in Visible(committed, u);
      }
    }
  }

  lemma CommittedDisjoint(live: set<Id>, committed: Items, session: Session)
    requires Disjoint(live, committed) && Disjoint(live, session.pending) && Apart(live, committed, session.pending)
    ensures Disjoint(live, Visible(committed, session))
  {
    var all := Visible(committed, session);
    forall i, j | i in all && j in all && i != j ensures !DoubleBooked(live, all[i], all[j]) {
      BookedIsMutual(live, all[i], all[j]);
    }
  }

  lemma CommitSparesRead(known: set<Id>, committed: Items, t: Session, u: Session)
    requires ReadOk(known, committed, u) && forall id :: !(WorksOn(u, id) && WorksOn(t, id))
    ensures ReadOk(known, Visible(committed, t), u)
  {
    assert Books(u.phase) ==> WorksOn(u, u.phase.booking.item.id);
  }

  lemma CommitKeepsInvariant(h: Hashes, s: System, tx: Tx)
    requires Invariant(h, s) && Enabled(h, s, Commit(tx))
    ensures Invariant(h, Next(h, s, Commit(tx)))
  {
    var next := Next(h, s, Commit(tx));
    StepKeepsWorkApart(h, s, Commit(tx));
    forall u | u in next.sessions
      ensures ReadOk(next.known, next.committed, next.sessions[u])
      ensures SessionOk(h, next.live, next.committed, next.sessions[u])
    {
      if u != tx {
        CommitSpares(h, s.live, s.committed, s.sessions[tx], s.sessions[u]);
        CommitSparesRead(s.known, s.committed, s.sessions[tx], s.sessions[u]);
      }
    }
    CommittedDisjoint(s.live, s.committed, s.sessions[tx]);
  }

  /* ---- Check and write ---- */

  lemma SessionChanges(h: Hashes, s: System, tx: Tx, session: Session)
    requires Invariant(h, s) && tx in s.sessions && session.held == s.sessions[tx].held
    requires WorkApart(With(s, tx, session))
    requires ReadOk(s.known, s.committed, session) && SessionOk(h, s.live, s.committed, session)
    ensures Invariant(h, With(s, tx, session))
  {}

  /** A query without conflicts leaves no row that would be double-booked with the item. */
  lemma CheckClears(known: set<Id>, live: set<Id>, items: Items, item: Item, exclude: Option<Id>)
    requires Filed(known, items) && exclude in {Some(item.id), None} && NoConflict(live, item.slot, exclude, items)
    ensures Clear(live, items, item)
  {
    forall i | i in items && i != item.id ensures !DoubleBooked(live, items[i], item) {
      SameScopeIsMutual(items[i].slot, item.slot);
    }
  }

  lemma CheckKeepsInvariant(h: Hashes, s: System, tx: Tx)
    requires Invariant(h, s) && Enabled(h, s, Check(tx))
    ensures Invariant(h, Next(h, s, Check(tx)))
  {
    var Booking(item, read) := s.sessions[tx].phase.booking;
    StepKeepsWorkApart(h, s, Check(tx));
    CheckClears(s.known, s.live, Visible(s.committed, s.sessions[tx]), item, if read.Some? then Some(item.id) else None);
    SessionChanges(h, s, tx, s.sessions[tx].(phase := Checked(s.sessions[tx].phase.booking)));
  }

  /** The row written is the one checked, up to a cancellation in between. */
  lemma WritesWhatWasChecked(known: set<Id>, committed: Items, session: Session)
    requires Filed(known, committed) && ReadOk(known, committed, session) && Books(session.phase)
    requires session.phase.booking.read.Some? <==> session.phase.booking.item.id in committed
    ensures var b := session.phase.booking; var row := Written(committed, b);
      row.id == b.item.id && row.event == b.item.event && row.slot == b.item.slot
  {}

  lemma WriteKeepsSession(h: Hashes, live: set<Id>, committed: Items, session: Session, row: Item)
    requires SessionOk(h, live, committed, session) && session.phase.Checked?
    requires session.phase.booking.item.id !in session.pending && session.phase.booking.item.status != Cancelled
    requires var item := session.phase.booking.item; row.id == item.id && row.event == item.event && row.slot == item.slot
    ensures SessionOk(h, live, committed, session.(phase := Idle, pending := session.pending[row.id := row]))
  {
    var after := session.(phase := Idle, pending := session.pending[row.id := row]);
    forall i | i in Visible(committed, session) && i != row.id
      ensures !DoubleBooked(live, Visible(committed, session)[i], row) && !DoubleBooked(live, row, Visible(committed, session)[i])
    {
      BookedIsMutual(live, Visible(committed, session)[i], row);
      assert !DoubleBooked(live, Visible(committed, session)[i], session.phase.booking.item);
    }
    forall i | i in after.pending ensures HoldsKeys(h, after, after.pending[i].slot) {
      assert i != row.id ==> HoldsKeys(h, session, session.pending[i].slot);
    }
    forall i, j | i in after.pending && j in after.pending && i != j
      ensures !DoubleBooked(live, after.pending[i], after.pending[j])
    {
      assert i != row.id ==> i in Visible(committed, session);
      assert j != row.id ==> j in Visible(committed, session);
    }
    forall i, j | i in committed && i !in after.pending && j in after.pending
      ensures !DoubleBooked(live, committed[i], after.pending[j])
    {
      assert i in Visible(committed, session);
    }
  }

  lemma WriteKeepsInvariant(h: Hashes, s: System, tx: Tx)
    requires Invariant(h, s) && Enabled(h, s, Write(tx))
    ensures Invariant(h, Next(h, s, Write(tx)))
  {
    StepKeepsWorkApart(h, s, Write(tx));
    WritesWhatWasChecked(s.known, s.committed, s.sessions[tx]);
    var session, row := s.sessions[tx], Written(s.committed, s.sessions[tx].phase.booking);
    WriteKeepsSession(h, s.live, s.committed, session, row);
    SessionChanges(h, s, tx, session.(phase := Idle, pending := session.pending[row.id := row]));
  }

  /* ---- The other steps ---- */

  lemma StartKeepsInvariant(h: Hashes, s: System, tx: Tx, item: Item)
    requires Invariant(h, s) && Enabled(h, s, Start(tx, item)) && Untouched(s, item.id)
    ensures Invariant(h, Next(h, s, Start(tx, item)))
  {
    StepKeepsWorkApart(h, s, Start(tx, item));
    SessionChanges(h, s, tx, Next(h, s, Start(tx, item)).sessions[tx]);
  }

  lemma LockKeepsSession(h: Hashes, live: set<Id>, committed: Items, session: Session, key: LockKey)
    requires SessionOk(h, live, committed, session) && session.phase.Locking?
    requires var keys := Keys(h, session.phase.booking.item.slot);
      session.phase.taken < |keys| && key == keys[session.phase.taken]
    ensures SessionOk(h, live, committed, WithLock(session, key))
  {
    forall i | i in session.pending ensures HoldsKeys(h, WithLock(session, key), session.pending[i].slot) {
      assert HoldsKeys(h, session, session.pending[i].slot);
    }
  }

  lemma LockKeepsInvariant(h: Hashes, s: System, tx: Tx)
    requires Invariant(h, s) && Enabled(h, s, Lock(tx))
    ensures Invariant(h, Next(h, s, Lock(tx)))
  {
    var session := s.sessions[tx];
    StepKeepsWorkApart(h, s, Lock(tx));
    LockKeepsSession(h, s.live, s.committed, session, Keys(h, session.phase.booking.item.slot)[session.phase.taken]);
  }

  lemma RollbackKeepsInvariant(h: Hashes, s: System, tx: Tx)
    requires Invariant(h, s) && Enabled(h, s, Rollback(tx))
    ensures Invariant(h, Next(h, s, Rollback(tx)))
  {
    StepKeepsWorkApart(h, s, Rollback(tx));
  }

  /** Fewer rows are active than before. */
  predicate Shrinks(known: set<Id>, live: set<Id>, items: Items, live': set<Id>, items': Items) {
    && live' * known <= live && items'.Keys <= items.Keys
    && forall i | i in items' :: items'[i] == items[i] || items'[i] == items[i].(status := Cancelled)
  }

  lemma ShrinkKeepsDisjoint(known: set<Id>, live: set<Id>, items: Items, live': set<Id>, items': Items)
    requires Shrinks(known, live, items, live', items') && Filed(known, items) && Disjoint(live, items)
    ensures Disjoint(live', items')
  {
    forall i, j | i in items' && j in items' && i != j ensures !DoubleBooked(live', items'[i], items'[j]) {
      assert !DoubleBooked(live, items[i], items[j]);
    }
  }

  /** Rows and events only becoming inactive or disappearing cannot double-book anything. */
  lemma ShrinkKeepsSession(h: Hashes, known: set<Id>, live: set<Id>, items: Items, live': set<Id>, items': Items,
                           session: Session)
    requires Shrinks(known, live, items, live', items') && Filed(known, items)
    requires ReadOk(known, items, session) && SessionOk(h, live, items, session)
    requires forall i | i in session.pending && i in items :: i in items'
    ensures SessionOk(h, live', items', session)
  {
    assert Apart(live', items', session.pending);
    if session.phase.Checked? {
      var item := session.phase.booking.item;
      forall i | i in Visible(items', session) && i != item.id ensures !DoubleBooked(live', Visible(items', session)[i], item) {
        assert !DoubleBooked(live, Visible(items, session)[i], item);
      }
    }
  }

  lemma ShrinkKeepsInvariant(h: Hashes, s: System, step: Step)
    requires Invariant(h, s) && Enabled(h, s, step)
    requires step.Cancel? || step.Delete? || step.EventMade? || step.EventGone?
    ensures Invariant(h, Next(h, s, step))
  {
    var next := Next(h, s, step);
    StepKeepsWorkApart(h, s, step);
    assert Shrinks(s.known, s.live, s.committed, next.live, next.committed);
    ShrinkKeepsDisjoint(s.known, s.live, s.committed, next.live, next.committed);
    forall u | u in next.sessions
      ensures ReadOk(next.known, next.committed, next.sessions[u])
      ensures SessionOk(h, next.live, next.committed, next.sessions[u])
    {
      assert ReadOk(s.known, s.committed, s.sessions[u]);
      ShrinkKeepsSession(h, s.known, s.live, s.committed, next.live, next.committed, s.sessions[u]);
    }
  }

  lemma StepKeepsInvariant(h: Hashes, s: System, step: Step)
    requires Invariant(h, s) && Enabled(h, s, step) && (step.Start? ==> Untouched(s, step.item.id))
    ensures Invariant(h, Next(h, s, step))
  {
    match step {
      case Commit(tx) => CommitKeepsInvariant(h, s, tx);
      case Check(tx) => CheckKeepsInvariant(h, s, tx);
      case Write(tx) => WriteKeepsInvariant(h, s, tx);
      case Start(tx, item) => StartKeepsInvariant(h, s, tx, item);
      case Lock(tx) => LockKeepsInvariant(h, s, tx);
      case Rollback(tx) => RollbackKeepsInvariant(h, s, tx);
      case Cancel(_) | Delete(_) | EventMade(_) | EventGone(_) => ShrinkKeepsInvariant(h, s, step);
    }
  }

  /* ---- Every interleaving ---- */

  lemma {:induction false} RunKeepsInvariant(h: Hashes, states: seq<System>, steps: seq<Step>, k: nat)
    requires IsRun(h, states, steps) && Initial(states[0]) && OwnItems(states, steps) && k < |states|
    ensures Invariant(h, states[k])
  {
    if k > 0 {
      RunKeepsInvariant(h, states, steps, k - 1);
      assert states[(k - 1) + 1] == Next(h, states[k - 1], steps[k - 1]);
      StepKeepsInvariant(h, states[k - 1], steps[k - 1]);
    }
  }

  /** However the transactions interleave, as long as no two work on one item, no reachable database has two active
      committed items of live events that overlap in one scope. */
  lemma NeverDoubleBooked(h: Hashes, states: seq<System>, steps: seq<Step>, k: nat, i: Id, j: Id)
    requires IsRun(h, states, steps) && Initial(states[0]) && OwnItems(states, steps) && k < |states|
    requires i in states[k].committed && j in states[k].committed && i != j
    ensures !DoubleBooked(states[k].live, states[k].committed[i], states[k].committed[j])
    ensures NeverTwoAtOnce(states[k].live, states[k].committed[i], states[k].committed[j])
  {
    RunKeepsInvariant(h, states, steps, k);
    NotDoubleBookedMeans(states[k].live, states[k].committed[i], states[k].committed[j]);
  }

  /* ---- Building runs ---- */

  lemma OneMore(h: Hashes, states: seq<System>, steps: seq<Step>, step: Step)
    requires IsRun(h, states, steps) && Enabled(h, states[|steps|], step)
    ensures IsRun(h, states + [Next(h, states[|steps|], step)], steps + [step])
  {}

  /** What an item's first lock and check lead to. */
  function AfterCheck(h: Hashes, s: System, tx: Tx, item: Item): System
    requires tx in s.sessions && |Keys(h, item.slot)| == 1
  {
    var read := if item.id in s.committed then Some(s.committed[item.id].slot) else None;
    var session := s.sessions[tx];
    With(s, tx, Session(Checked(Booking(item, read)), session.held + {Keys(h, item.slot)[0]}, session.pending))
  }

  /** Start, lock and check of an item with one free key. */
  lemma BookChecked(h: Hashes, states: seq<System>, steps: seq<Step>, tx: Tx, item: Item)
    returns (states': seq<System>, steps': seq<Step>)
    requires IsRun(h, states, steps) && Enabled(h, states[|steps|], Start(tx, item))
    requires |Keys(h, item.slot)| == 1 && LockFree(states[|steps|], tx, Keys(h, item.slot)[0])
    requires var s := states[|steps|];
      NoConflict(s.live, item.slot, if item.id in s.committed then Some(item.id) else None, Visible(s.committed, s.sessions[tx]))
    ensures IsRun(h, states', steps') && states <= states' && steps' == steps + [Start(tx, item), Lock(tx), Check(tx)]
    ensures states'[|steps'|] == AfterCheck(h, states[|steps|], tx, item)
  {
    var s0 := states[|steps|];
    OneMore(h, states, steps, Start(tx, item));
    var s1 := Next(h, s0, Start(tx, item));
    OneMore(h, states + [s1], steps + [Start(tx, item)], Lock(tx));
    var s2 := Next(h, s1, Lock(tx));
    OneMore(h, states + [s1] + [s2], steps + [Start(tx, item)] + [Lock(tx)], Check(tx));
    states' := states + [s1] + [s2] + [Next(h, s2, Check(tx))];
    steps' := steps + [Start(tx, item)] + [Lock(tx)] + [Check(tx)];
    assert steps' == steps + [Start(tx, item), Lock(tx), Check(tx)];
  }

  /* ---- Two transactions rescheduling one item ---- */

  function Rescheduled(s: System, id: Id, slot: Slot): Item
    requires id in s.committed
  {
    s.committed[id].(slot := slot)
  }

  predicate CanReschedule(h: Hashes, s: System, id: Id, slot: Slot) {
    && id in s.committed && s.committed[id].id == id && s.committed[id].status != Cancelled
    && |Keys(h, slot)| == 1 && NoConflict(s.live, slot, Some(id), s.committed)
  }

  /** Both transactions have checked their slots for the item. */
  lemma BothCheck(h: Hashes, s: System, id: Id, a: Slot, b: Slot) returns (states: seq<System>, steps: seq<Step>)
    requires Initial(s) && 1 in s.sessions && 2 in s.sessions
    requires CanReschedule(h, s, id, a) && CanReschedule(h, s, id, b) && Keys(h, a)[0] != Keys(h, b)[0]
    ensures IsRun(h, states, steps) && |steps| == 6 && states[0] == s
    ensures var read := Some(s.committed[id].slot);
      states[6] == With(With(s, 1, Session(Checked(Booking(Rescheduled(s, id, a), read)), {Keys(h, a)[0]}, map[])),
                        2, Session(Checked(Booking(Rescheduled(s, id, b), read)), {Keys(h, b)[0]}, map[]))
  {
    assert s.committed + map[] == s.committed;
    assert {} + {Keys(h, a)[0]} == {Keys(h, a)[0]} && {} + {Keys(h, b)[0]} == {Keys(h, b)[0]};
    states, steps := BookChecked(h, [s], [], 1, Rescheduled(s, id, a));
    states, steps := BookChecked(h, states, steps, 2, Rescheduled(s, id, b));
  }

  /** A write and a commit replace the row by what is merged into it. */
  lemma WriteAndCommit(h: Hashes, states: seq<System>, steps: seq<Step>, tx: Tx)
    returns (states': seq<System>, steps': seq<Step>)
    requires IsRun(h, states, steps) && Enabled(h, states[|steps|], Write(tx))
    requires states[|steps|].sessions[tx].pending == map[]
    ensures IsRun(h, states', steps') && states <= states' && steps' == steps + [Write(tx), Commit(tx)]
    ensures var s := states[|steps|]; var booking := s.sessions[tx].phase.booking;
      states'[|steps'|] == With(s.(committed := s.committed[booking.item.id := Written(s.committed, booking)]), tx, FINISHED)
  {
    var s0 := states[|steps|];
    OneMore(h, states, steps, Write(tx));
    var s1 := Next(h, s0, Write(tx));
    OneMore(h, states + [s1], steps + [Write(tx)], Commit(tx));
    states' := states + [s1] + [Next(h, s1, Commit(tx))];
    steps' := steps + [Write(tx)] + [Commit(tx)];
    assert steps' == steps + [Write(tx), Commit(tx)];
  }

  lemma ReplacedDisjoint(live: set<Id>, items: Items, row: Item)
    requires Disjoint(live, items)
    ensures Disjoint(live, items[row.id := row]) <==> Clear(live, items, row)
  {
    var after := items[row.id := row];
    if Disjoint(live, after) {
      forall i | i in items && i != row.id ensures !DoubleBooked(live, items[i], row) {
        assert !DoubleBooked(live, after[i], after[row.id]);
      }
    }
    if Clear(live, items, row) {
      forall i, j | i in after && j in after && i != j ensures !DoubleBooked(live, after[i], after[j]) {
        BookedIsMutual(live, after[i], after[j]);
      }
    }
  }

  lemma MergingRun(h: Hashes, s: System, id: Id, a: Slot, b: Slot) returns (states: seq<System>, steps: seq<Step>)
    requires Initial(s) && 1 in s.sessions && 2 in s.sessions
    requires CanReschedule(h, s, id, a) && CanReschedule(h, s, id, b) && Keys(h, a)[0] != Keys(h, b)[0]
    ensures IsRun(h, states, steps) && |steps| == 10 && states[0] == s && states[10].live == s.live
    ensures states[10].committed == s.committed[id := Rescheduled(s, id, Merged(s.committed[id].slot, b, a))]
  {
    states, steps := BothCheck(h, s, id, a, b);
    states, steps := WriteAndCommit(h, states, steps, 1);
    states, steps := WriteAndCommit(h, states, steps, 2);
  }

  /** Two overlapping reschedules of one item that each find their slot free leave the columns of both merged, which is
      right only if that slot happens to be free. */
  lemma LastWriteMerges(h: Hashes, s: System, id: Id, a: Slot, b: Slot) returns (states: seq<System>, steps: seq<Step>)
    requires Initial(s) && 1 in s.sessions && 2 in s.sessions
    requires CanReschedule(h, s, id, a) && CanReschedule(h, s, id, b) && Keys(h, a)[0] != Keys(h, b)[0]
    ensures IsRun(h, states, steps) && |steps| == 10 && states[0] == s && states[10].live == s.live
    ensures var merged := Rescheduled(s, id, Merged(s.committed[id].slot, b, a));
      && states[10].committed == s.committed[id := merged]
      && (Disjoint(s.live, states[10].committed) <==> Clear(s.live, s.committed, merged))
  {
    ReplacedDisjoint(s.live, s.committed, Rescheduled(s, id, Merged(s.committed[id].slot, b, a)));
    states, steps := MergingRun(h, s, id, a, b);
  }

  /** One moves the item to another venue, the other to another time; each finds its slot free, and together they leave a
      slot nobody checked. */
  lemma SameItemDoubleBooked() returns (h: Hashes, states: seq<System>, steps: seq<Step>)
    ensures IsRun(h, states, steps) && Initial(states[0]) && |states| == 11
    ensures var s := states[10]; 1 in s.committed && 2 in s.committed && DoubleBooked(s.live, s.committed[1], s.committed[2])
  {
    h := Hashes(v => v, r => 0);
    var slot := Slot(Some(1), "", Some(10), Some(11), None, None);
    var other := Item(2, 0, Slot(Some(2), "", Some(12), Some(13), None, None), Scheduled);
    var s := System({0}, {0}, map[1 := Item(1, 0, slot, Scheduled), 2 := other], map[1 := IDLE, 2 := IDLE]);
    states, steps := LastWriteMerges(h, s, 1, slot.(venue := Some(2)), slot.(start := Some(12), end := Some(13)));
  }
}
