/** The category taxonomy, the events filed under it, and the role assignments of those events. */
module Categories {
  import opened Common

  type Id = nat
  type User = nat

  datatype MainCategory = MainCategory(deleted: bool, active: bool)
  datatype SubCategory = SubCategory(main: Id, deleted: bool, active: bool)
  datatype Event = Event(main: Option<Id>, sub: Option<Id>, organizer: Option<User>, deletedAt: Option<int>, archived: bool)
  datatype Role = EventManager | OtherRole
  datatype Assignment = Assignment(user: User, role: Role, event: Option<Id>, active: bool)

  datatype State = State(mains: map<Id, MainCategory>, subs: map<Id, SubCategory>, events: map<Id, Event>, assignments: seq<Assignment>)

  /* ---- What must always hold ---- */

  predicate LiveMain(s: State, m: Id) {
    m in s.mains && !s.mains[m].deleted
  }

  predicate LiveSub(s: State, u: Id) {
    u in s.subs && !s.subs[u].deleted
  }

  predicate LiveEvent(s: State, e: Id) {
    e in s.events && s.events[e].deletedAt.None?
  }

  /** A live event is filed under a live main category and, if it has a sub category, under a live one of that main category. */
  predicate WellFiled(s: State, e: Id)
    requires e in s.events
  {
    var event := s.events[e];
    && (event.main.Some? ==> LiveMain(s, event.main.value))
    && (event.sub.Some? ==> event.main.Some? && LiveSub(s, event.sub.value) && s.subs[event.sub.value].main == event.main.value)
  }

  predicate Manages(a: Assignment, e: Id) {
    a.active && a.role == EventManager && a.event == Some(e)
  }

  ghost predicate TaxonomySound(s: State) {
    && (forall u | LiveSub(s, u) :: LiveMain(s, s.subs[u].main))
    && (forall e | LiveEvent(s, e) :: WellFiled(s, e))
  }

  /** Assignments belong to existing events, active ones to live events; the one active manager of an event is its organizer. */
  predicate AssignmentsSound(events: map<Id, Event>, assignments: seq<Assignment>) {
    && (forall i | 0 <= i < |assignments| && assignments[i].event.Some? :: assignments[i].event.value in events)
    && (forall i | 0 <= i < |assignments| && assignments[i].event.Some? && assignments[i].active ::
          events[assignments[i].event.value].deletedAt.None?)
    && (forall i | 0 <= i < |assignments| && assignments[i].event.Some? && Manages(assignments[i], assignments[i].event.value) ::
          events[assignments[i].event.value].organizer == Some(assignments[i].user))
    && (forall i, j | 0 <= i < j < |assignments| && assignments[i].event.Some? && Manages(assignments[i], assignments[i].event.value) ::
          !Manages(assignments[j], assignments[i].event.value))
  }

  ghost predicate Sound(s: State) {
    TaxonomySound(s) && AssignmentsSound(s.events, s.assignments)
  }

  /* ---- Operations ---- */

  datatype Resolution = Filed(main: Option<Id>, sub: Option<Id>) | NotFiled

  /** Which categories an event gets: both must exist, be active unless that is waived, and belong together. */
  function Resolve(s: State, main: Option<Id>, sub: Option<Id>, requireSub: bool, allowInactive: bool): Resolution {
    if main.None? && sub.None? then Filed(None, None)
    else if main.Some? && (!LiveMain(s, main.value) || (!allowInactive && !s.mains[main.value].active)) then NotFiled
    else if sub.Some? then
      if !LiveSub(s, sub.value) || (!allowInactive && !s.subs[sub.value].active) then NotFiled
      else
        var owner := s.subs[sub.value].main;
        if main.None? then
          if !LiveMain(s, owner) || (!allowInactive && !s.mains[owner].active) then NotFiled else Filed(Some(owner), sub)
        else if owner != main.value then NotFiled
        else Filed(main, sub)
    else if requireSub then NotFiled
    else Filed(main, None)
  }

  /** Keeps the first active manager assignment of the user, revokes the other active ones of the event. */
  function RevokeOthers(assignments: seq<Assignment>, e: Id, user: User, kept: bool): seq<Assignment> {
    if assignments == [] then []
    else
      var a := assignments[0];
      if !Manages(a, e) then [a] + RevokeOthers(assignments[1..], e, user, kept)
      else if a.user == user && !kept then [a] + RevokeOthers(assignments[1..], e, user, true)
      else [a.(active := false)] + RevokeOthers(assignments[1..], e, user, kept)
  }

  /** What becomes of one assignment, and whether the user's has been kept afterwards. */
  function RevokeOne(a: Assignment, e: Id, user: User, kept: bool): Assignment {
    if Manages(a, e) && (a.user != user || kept) then a.(active := false) else a
  }

  function KeptAfter(a: Assignment, e: Id, user: User, kept: bool): bool {
    kept || (Manages(a, e) && a.user == user)
  }

  /** One more step of revoking in place: the first i are done, the rest is as it was. */
  lemma RevokeNext(all: seq<Assignment>, now: seq<Assignment>, i: nat, e: Id, user: User, kept: bool)
    requires i < |all| == |now| && now[i..] == all[i..]
    requires RevokeOthers(all, e, user, false) == now[..i] + RevokeOthers(all[i..], e, user, kept)
    ensures now[i] == all[i]
    ensures var next := now[i := RevokeOne(all[i], e, user, kept)];
      && next[i + 1..] == all[i + 1..]
      && RevokeOthers(all, e, user, false) == next[..i + 1] + RevokeOthers(all[i + 1..], e, user, KeptAfter(all[i], e, user, kept))
  {
    var next, rest := now[i := RevokeOne(all[i], e, user, kept)], all[i..];
    assert now[i..][0] == now[i] && rest[0] == all[i] && rest[1..] == all[i + 1..] && now[i..][1..] == now[i + 1..];
    assert next[..i + 1] == now[..i] + [RevokeOne(all[i], e, user, kept)];
  }

  predicate HasManager(assignments: seq<Assignment>, e: Id, user: User) {
    exists i | 0 <= i < |assignments| :: Manages(assignments[i], e) && assignments[i].user == user
  }

  function Assigned(assignments: seq<Assignment>, e: Id, user: User): seq<Assignment> {
    RevokeOthers(assignments, e, user, false)
    + (if HasManager(assignments, e, user) then [] else [Assignment(user, EventManager, Some(e), true)])
  }

  function WithManager(s: State, e: Id, user: User): State
    requires e in s.events
  {
    s.(assignments := Assigned(s.assignments, e, user), events := s.events[e := s.events[e].(organizer := Some(user))])
  }

  function Revoke(a: Assignment, gone: set<Id>): Assignment {
    if a.active && a.event.Some? && a.event.value in gone then a.(active := false) else a
  }

  function RevokeAll(assignments: seq<Assignment>, gone: set<Id>): seq<Assignment> {
    seq(|assignments|, i requires 0 <= i < |assignments| => Revoke(assignments[i], gone))
  }

  function DeletedAt(events: map<Id, Event>, now: int): set<Id> {
    set e | e in events && events[e].deletedAt == Some(now)
  }

  function DeleteEvents(events: map<Id, Event>, doomed: set<Id>, now: int): map<Id, Event> {
    map e | e in events ::
      if e in doomed && events[e].deletedAt.None? then events[e].(deletedAt := Some(now), archived := true) else events[e]
  }

  /** Events filed under the main category, directly or through one of its sub categories. */
  function UnderMain(s: State, m: Id): set<Id> {
    set e | e in s.events && (s.events[e].main == Some(m)
      || (s.events[e].sub.Some? && s.events[e].sub.value in s.subs && s.subs[s.events[e].sub.value].main == m))
  }

  function UnderSub(s: State, u: Id): set<Id> {
    set e | e in s.events && s.events[e].sub == Some(u)
  }

  datatype Op =
    | CreateMain(id: Id, active: bool)
    | DeleteMain(id: Id, now: int)
    | CreateSub(id: Id, parent: Id, active: bool)
    | UpdateSub(id: Id, newParent: Field<Option<Id>>, active: bool)
    | DeleteSub(id: Id, now: int)
    | CreateEvent(id: Id, main: Option<Id>, sub: Option<Id>, organizer: Option<User>, admin: bool, eligible: bool)
    | UpdateEvent(id: Id, newMain: Field<Option<Id>>, newSub: Field<Option<Id>>, newOrganizer: Field<Option<User>>, admin: bool, eligible: bool)
    | CloneEvent(id: Id, main: Option<Id>, sub: Option<Id>, organizer: Option<User>, actor: User, admin: bool, eligible: bool)
    | DeleteEvent(id: Id, admin: bool, now: int)

  /** An event moved to other categories, if they resolve and leave it with a sub category. */
  function Refiled(s: State, id: Id, main: Field<Option<Id>>, sub: Field<Option<Id>>): Option<State>
    requires id in s.events
  {
    if main.Keep? && sub.Keep? then Some(s)
    else
      var event := s.events[id];
      var filed := Resolve(s, Patched(event.main, main), Patched(event.sub, sub), false, false);
      if filed.NotFiled? || (filed.main.Some? && filed.sub.None?) then None
      else Some(s.(events := s.events[id :=
        event.(main := if filed.main.Some? then filed.main else event.main, sub := if filed.sub.Some? then filed.sub else event.sub)]))
  }

  /** The state after a successful operation, or None when it is refused and rolled back. `admin` says whether the actor
      is an operations or super admin, `eligible` whether the chosen organizer is an active event manager account. */
  function Apply(s: State, op: Op): Option<State> {
    match op
    case CreateMain(id, active) =>
      if id in s.mains then None else Some(s.(mains := s.mains[id := MainCategory(false, active)]))
    case DeleteMain(id, now) =>
      if !LiveMain(s, id) then None
      else
        var events := DeleteEvents(s.events, UnderMain(s, id), now);
        Some(State(s.mains[id := MainCategory(true, false)],
                   map u | u in s.subs :: if s.subs[u].main == id && !s.subs[u].deleted then SubCategory(id, true, false) else s.subs[u],
                   events, RevokeAll(s.assignments, DeletedAt(events, now))))
    case CreateSub(id, main, active) =>
      if id in s.subs || !LiveMain(s, main) then None else Some(s.(subs := s.subs[id := SubCategory(main, false, active)]))
    case UpdateSub(id, main, active) =>
      if !LiveSub(s, id) then None
      else
        var target := Patched(Some(s.subs[id].main), main);
        if target == Some(s.subs[id].main) then Some(s.(subs := s.subs[id := s.subs[id].(active := active)]))
        else if target.None? || !LiveMain(s, target.value) || UnderSub(s, id) != {} then None
        else Some(s.(subs := s.subs[id := SubCategory(target.value, false, active)]))
    case DeleteSub(id, now) =>
      if !LiveSub(s, id) then None
      else
        var events := DeleteEvents(s.events, UnderSub(s, id), now);
        Some(s.(subs := s.subs[id := s.subs[id].(deleted := true, active := false)],
                events := events, assignments := RevokeAll(s.assignments, DeletedAt(events, now))))
    case CreateEvent(id, main, sub, organizer, admin, eligible) =>
      var filed := Resolve(s, main, sub, true, false);
      if id in s.events || filed.NotFiled? || (organizer.Some? && (!admin || !eligible)) then None
      else
        var created := s.(events := s.events[id := Event(filed.main, filed.sub, organizer, None, false)]);
        Some(if organizer.Some? then WithManager(created, id, organizer.value) else created)
    case UpdateEvent(id, main, sub, organizer, admin, eligible) =>
      if !LiveEvent(s, id) || (organizer.Set? && (organizer.value.None? || !admin || !eligible)) then None
      else
        Refiled(if organizer.Set? then WithManager(s, id, organizer.value.value) else s, id, main, sub)
    case CloneEvent(id, main, sub, organizer, actor, admin, eligible) =>
      var filed := Resolve(s, main, sub, false, false);
      if id in s.events || filed.NotFiled? || (admin && (organizer.None? || !eligible)) || (!admin && organizer !in {None, Some(actor)}) then None
      else
        var manager := if admin then organizer.value else actor;
        var created := s.(events := s.events[id := Event(filed.main, filed.sub, Some(manager), None, false)]);
        Some(if admin then WithManager(created, id, manager)
             else created.(assignments := created.assignments + [Assignment(actor, EventManager, Some(id), true)]))
    case DeleteEvent(id, admin, now) =>
      if !admin || !LiveEvent(s, id) then None
      else Some(s.(events := s.events[id := s.events[id].(deletedAt := Some(now), archived := true)],
                   assignments := RevokeAll(s.assignments, {id})))
  }

  /* ---- Lemmas ---- */

  /** Resolved categories are live and belong together, and a required sub category is there. */
  lemma ResolveIsWellFiled(s: State, main: Option<Id>, sub: Option<Id>, requireSub: bool, allowInactive: bool)
    requires Resolve(s, main, sub, requireSub, allowInactive).Filed?
    ensures var r := Resolve(s, main, sub, requireSub, allowInactive);
      && (r.main.Some? ==> LiveMain(s, r.main.value))
      && (r.sub.Some? ==> r.main.Some? && LiveSub(s, r.sub.value) && s.subs[r.sub.value].main == r.main.value)
      && (requireSub ==> (r.main.Some? <==> r.sub.Some?))
      && (sub.Some? ==> r.sub == sub) && (main.Some? ==> r.main == main)
  {}

  predicate UsableMain(s: State, m: Id, allowInactive: bool) {
    m in s.mains && !s.mains[m].deleted && (s.mains[m].active || allowInactive)
  }

  predicate UsableSub(s: State, u: Id, allowInactive: bool) {
    u in s.subs && !s.subs[u].deleted && (s.subs[u].active || allowInactive)
  }

  /** Categories are refused exactly when one that is named, or the main category of the sub category, is missing, deleted
      or inactive, when the two do not belong together, or when a sub category is required and only a main one is named. */
  lemma ResolveIffUsable(s: State, main: Option<Id>, sub: Option<Id>, requireSub: bool, allowInactive: bool)
    ensures Resolve(s, main, sub, requireSub, allowInactive).NotFiled? <==>
            || (main.Some? && !UsableMain(s, main.value, allowInactive))
            || (sub.Some? && !UsableSub(s, sub.value, allowInactive))
            || (sub.Some? && sub.value in s.subs && !UsableMain(s, s.subs[sub.value].main, allowInactive) && main.None?)
            || (sub.Some? && sub.value in s.subs && main.Some? && s.subs[sub.value].main != main.value)
            || (main.Some? && sub.None? && requireSub)
    ensures Resolve(s, main, sub, requireSub, allowInactive).Filed? ==>
            Resolve(s, main, sub, requireSub, allowInactive)
            == Filed(if main.None? && sub.Some? then Some(s.subs[sub.value].main) else main, sub)
  {}

  /** After reassigning, the user is the only active manager of the event; every other assignment is untouched. */
  lemma {:induction false} RevokeOthersMeaning(assignments: seq<Assignment>, e: Id, user: User, kept: bool)
    ensures var r := RevokeOthers(assignments, e, user, kept);
            && |r| == |assignments|
            && (forall i | 0 <= i < |r| :: if Manages(assignments[i], e) then r[i] in {assignments[i], assignments[i].(active := false)}
                                          else r[i] == assignments[i])
            && (forall i | 0 <= i < |r| && Manages(r[i], e) :: r[i].user == user && !kept)
            && (forall i, j | 0 <= i < j < |r| && Manages(r[i], e) :: !Manages(r[j], e))
            && (!kept && HasManager(assignments, e, user) ==> HasManager(r, e, user))
  {
    if assignments != [] {
      var a, rest := assignments[0], assignments[1..];
      var hit := Manages(a, e) && a.user == user && !kept;
      RevokeOthersMeaning(rest, e, user, kept || hit);
      var r, tail := RevokeOthers(assignments, e, user, kept), RevokeOthers(rest, e, user, kept || hit);
      assert r[1..] == tail;
      forall i | 0 < i < |r| ensures r[i] == tail[i - 1] && assignments[i] == rest[i - 1] {}
      if !kept && HasManager(assignments, e, user) {
        if hit {
          assert Manages(r[0], e) && r[0].user == user;
        } else {
          var k :| 0 <= k < |assignments| && Manages(assignments[k], e) && assignments[k].user == user;
          assert Manages(rest[k - 1], e) && rest[k - 1].user == user;
          var j :| 0 <= j < |tail| && Manages(tail[j], e) && tail[j].user == user;
          assert r[j + 1] == tail[j];
        }
      }
    }
  }

  lemma AssignedMeaning(assignments: seq<Assignment>, e: Id, user: User)
    ensures var r := Assigned(assignments, e, user);
      && |assignments| <= |r|
      && (forall i | 0 <= i < |assignments| ::
            if Manages(assignments[i], e) then r[i] in {assignments[i], assignments[i].(active := false)} else r[i] == assignments[i])
      && (forall i | |assignments| <= i < |r| :: r[i] == Assignment(user, EventManager, Some(e), true))
      && HasManager(r, e, user)
      && (forall i | 0 <= i < |r| && Manages(r[i], e) :: r[i].user == user)
      && (forall i, j | 0 <= i < j < |r| && Manages(r[i], e) :: !Manages(r[j], e))
  {
    RevokeOthersMeaning(assignments, e, user, false);
    var revoked, r := RevokeOthers(assignments, e, user, false), Assigned(assignments, e, user);
    if HasManager(assignments, e, user) {
      assert r == revoked;
    } else {
      assert Manages(r[|revoked|], e) && r[|revoked|].user == user;
      forall i | 0 <= i < |revoked| ensures !Manages(revoked[i], e) {
        assert !(Manages(assignments[i], e) && assignments[i].user == user);
      }
    }
  }

  /** Assigning a manager to a live event keeps the assignments sound, with that user as the organizer. */
  lemma WithManagerKeepsSound(s: State, e: Id, user: User)
    requires LiveEvent(s, e)
    requires (forall i | 0 <= i < |s.assignments| && s.assignments[i].event.Some? :: s.assignments[i].event.value in s.events)
    requires forall f | f != e :: AssignmentsSoundFor(s.events, s.assignments, f)
    ensures AssignmentsSound(WithManager(s, e, user).events, WithManager(s, e, user).assignments)
  {
    AssignedMeaning(s.assignments, e, user);
    var next := WithManager(s, e, user);
    forall f | f != e ensures AssignmentsSoundFor(next.events, next.assignments, f) {
      assert AssignmentsSoundFor(s.events, s.assignments, f);
    }
    assert AssignmentsSoundFor(next.events, next.assignments, e);
    SoundByEvent(next.events, next.assignments);
  }

  /** The part of the assignment invariant about one event. */
  predicate AssignmentsSoundFor(events: map<Id, Event>, assignments: seq<Assignment>, e: Id) {
    && (forall i | 0 <= i < |assignments| && assignments[i].event == Some(e) :: e in events)
    && (forall i | 0 <= i < |assignments| && assignments[i].event == Some(e) && assignments[i].active :: events[e].deletedAt.None?)
    && (forall i | 0 <= i < |assignments| && Manages(assignments[i], e) :: events[e].organizer == Some(assignments[i].user))
    && (forall i, j | 0 <= i < j < |assignments| && Manages(assignments[i], e) :: !Manages(assignments[j], e))
  }

  lemma SoundByEvent(events: map<Id, Event>, assignments: seq<Assignment>)
    ensures AssignmentsSound(events, assignments) <==> forall e :: AssignmentsSoundFor(events, assignments, e)
  {
    if forall e :: AssignmentsSoundFor(events, assignments, e) {
      forall i | 0 <= i < |assignments| && assignments[i].event.Some?
        ensures AssignmentsSoundFor(events, assignments, assignments[i].event.value)
      {}
    }
  }

  /** Deleting events revokes every assignment that was active for them and no other. */
  lemma RevokeKeepsSound(events: map<Id, Event>, assignments: seq<Assignment>, doomed: set<Id>, now: int, gone: set<Id>)
    requires AssignmentsSound(events, assignments)
    requires forall e | e in doomed && e in events && events[e].deletedAt.None? :: e in gone
    requires forall e | e in gone :: e in events && (events[e].deletedAt.Some? || e in doomed)
    ensures AssignmentsSound(DeleteEvents(events, doomed, now), RevokeAll(assignments, gone))
    ensures RevokeAll(assignments, gone) == RevokeAll(assignments, doomed)
  {}

  lemma DeletedNow(events: map<Id, Event>, doomed: set<Id>, now: int)
    ensures var gone := DeletedAt(DeleteEvents(events, doomed, now), now);
      && (forall e | e in doomed && e in events && events[e].deletedAt.None? :: e in gone)
      && (forall e | e in gone :: e in events && (events[e].deletedAt.Some? || e in doomed))
  {}

  lemma DeletionKeepsSound(s: State, op: Op)
    requires Sound(s) && (op.DeleteMain? || op.DeleteSub? || op.DeleteEvent?) && Apply(s, op).Some?
    ensures Sound(Apply(s, op).value)
  {
    var next := Apply(s, op).value;
    forall e | LiveEvent(next, e) ensures WellFiled(next, e) {
      assert LiveEvent(s, e) && WellFiled(s, e);
    }
    match op {
      case DeleteMain(id, now) =>
        DeletedNow(s.events, UnderMain(s, id), now);
        RevokeKeepsSound(s.events, s.assignments, UnderMain(s, id), now, DeletedAt(next.events, now));
      case DeleteSub(id, now) =>
        DeletedNow(s.events, UnderSub(s, id), now);
        RevokeKeepsSound(s.events, s.assignments, UnderSub(s, id), now, DeletedAt(next.events, now));
      case DeleteEvent(id, _, now) =>
        RevokeKeepsSound(s.events, s.assignments, {id}, now, {id});
        assert next.events == DeleteEvents(s.events, {id}, now);
    }
  }

  lemma TaxonomyOpKeepsSound(s: State, op: Op)
    requires Sound(s) && (op.CreateMain? || op.CreateSub? || op.UpdateSub?) && Apply(s, op).Some?
    ensures Sound(Apply(s, op).value)
  {
    var next := Apply(s, op).value;
    forall e | LiveEvent(next, e) ensures WellFiled(next, e) {
      assert LiveEvent(s, e) && WellFiled(s, e);
      if op.UpdateSub? && s.events[e].sub == Some(op.id) {
        assert e in UnderSub(s, op.id);
      }
    }
  }

  lemma NewEventKeepsSound(s: State, created: State, id: Id)
    requires AssignmentsSound(s.events, s.assignments) && id !in s.events && id in created.events
    requires created.events == s.events[id := created.events[id]] && created.assignments == s.assignments
    ensures AssignmentsSound(created.events, created.assignments)
    ensures forall f :: AssignmentsSoundFor(created.events, created.assignments, f)
  {}

  lemma CreateEventKeepsSound(s: State, op: Op)
    requires Sound(s) && op.CreateEvent? && Apply(s, op).Some?
    ensures Sound(Apply(s, op).value)
  {
    var next := Apply(s, op).value;
    var filed := Resolve(s, op.main, op.sub, true, false);
    ResolveIsWellFiled(s, op.main, op.sub, true, false);
    var created := s.(events := s.events[op.id := Event(filed.main, filed.sub, op.organizer, None, false)]);
    SoundByEvent(s.events, s.assignments);
    NewEventKeepsSound(s, created, op.id);
    if op.organizer.Some? {
      WithManagerKeepsSound(created, op.id, op.organizer.value);
    }
    forall e | LiveEvent(next, e) ensures WellFiled(next, e) {
      assert e != op.id ==> LiveEvent(s, e) && WellFiled(s, e);
    }
  }

  lemma CloneEventKeepsSound(s: State, op: Op)
    requires Sound(s) && op.CloneEvent? && Apply(s, op).Some?
    ensures Sound(Apply(s, op).value)
  {
    var next := Apply(s, op).value;
    var filed := Resolve(s, op.main, op.sub, false, false);
    ResolveIsWellFiled(s, op.main, op.sub, false, false);
    var manager := if op.admin then op.organizer.value else op.actor;
    var created := s.(events := s.events[op.id := Event(filed.main, filed.sub, Some(manager), None, false)]);
    NewEventKeepsSound(s, created, op.id);
    if op.admin {
      WithManagerKeepsSound(created, op.id, manager);
    }
    forall e | LiveEvent(next, e) ensures WellFiled(next, e) {
      assert e != op.id ==> LiveEvent(s, e) && WellFiled(s, e);
    }
  }

  lemma RefilingKeepsSound(s: State, id: Id, main: Field<Option<Id>>, sub: Field<Option<Id>>)
    requires Sound(s) && LiveEvent(s, id) && Refiled(s, id, main, sub).Some?
    ensures Sound(Refiled(s, id, main, sub).value)
  {
    if main.Set? || sub.Set? {
      var next := Refiled(s, id, main, sub).value;
      ResolveIsWellFiled(s, Patched(s.events[id].main, main), Patched(s.events[id].sub, sub), false, false);
      assert WellFiled(s, id);
      forall e | LiveEvent(next, e) ensures WellFiled(next, e) {
        assert LiveEvent(s, e) && WellFiled(s, e);
      }
    }
  }

  lemma ManagedIsSound(s: State, e: Id, user: User)
    requires Sound(s) && LiveEvent(s, e)
    ensures Sound(WithManager(s, e, user))
  {
    var next := WithManager(s, e, user);
    SoundByEvent(s.events, s.assignments);
    WithManagerKeepsSound(s, e, user);
    forall f | LiveEvent(next, f) ensures WellFiled(next, f) {
      assert LiveEvent(s, f) && WellFiled(s, f);
    }
  }

  lemma UpdateEventKeepsSound(s: State, op: Op)
    requires Sound(s) && op.UpdateEvent? && Apply(s, op).Some?
    ensures Sound(Apply(s, op).value)
  {
    if op.newOrganizer.Set? {
      ManagedIsSound(s, op.id, op.newOrganizer.value.value);
    }
    RefilingKeepsSound(if op.newOrganizer.Set? then WithManager(s, op.id, op.newOrganizer.value.value) else s, op.id, op.newMain, op.newSub);
  }

  lemma OpKeepsSound(s: State, op: Op)
    requires Sound(s) && Apply(s, op).Some?
    ensures Sound(Apply(s, op).value)
  {
    match op {
      case CreateMain(_, _) => TaxonomyOpKeepsSound(s, op);
      case CreateSub(_, _, _) => TaxonomyOpKeepsSound(s, op);
      case UpdateSub(_, _, _) => TaxonomyOpKeepsSound(s, op);
      case DeleteMain(_, _) => DeletionKeepsSound(s, op);
      case DeleteSub(_, _) => DeletionKeepsSound(s, op);
      case DeleteEvent(_, _, _) => DeletionKeepsSound(s, op);
      case CreateEvent(_, _, _, _, _, _) => CreateEventKeepsSound(s, op);
      case CloneEvent(_, _, _, _, _, _, _) => CloneEventKeepsSound(s, op);
      case UpdateEvent(_, _, _, _, _, _) => UpdateEventKeepsSound(s, op);
    }
  }

  /** A refused operation is rolled back. */
  function Run(s: State, ops: seq<Op>): State
    decreases |ops|
  {
    if ops == [] then s else Run(if Apply(s, ops[0]).Some? then Apply(s, ops[0]).value else s, ops[1..])
  }

  /** Over every run of operations the taxonomy, the filing of live events and the single manager stay in order. */
  lemma {:induction false} RunKeepsSound(s: State, ops: seq<Op>)
    requires Sound(s)
    ensures Sound(Run(s, ops))
    decreases |ops|
  {
    if ops != [] {
      if Apply(s, ops[0]).Some? {
        OpKeepsSound(s, ops[0]);
        RunKeepsSound(Apply(s, ops[0]).value, ops[1..]);
      } else {
        RunKeepsSound(s, ops[1..]);
      }
    }
  }

  /** Reassigning leaves the event with exactly one active event manager, the user, and touches no other role or event. */
  lemma AssignedPlainly(assignments: seq<Assignment>, e: Id, user: User)
    ensures var r := Assigned(assignments, e, user);
      && (exists i | 0 <= i < |r| :: r[i] == Assignment(user, EventManager, Some(e), true))
      && (forall i, j | 0 <= i < |r| && 0 <= j < |r| && r[i].active && r[j].active && r[i].role == EventManager && r[j].role == EventManager
            && r[i].event == Some(e) && r[j].event == Some(e) :: i == j)
      && |assignments| <= |r| <= |assignments| + 1
      && (forall i | 0 <= i < |assignments| && (assignments[i].role != EventManager || assignments[i].event != Some(e)) ::
            r[i] == assignments[i])
  {
    AssignedMeaning(assignments, e, user);
    RevokeOthersMeaning(assignments, e, user, false);
    var r := Assigned(assignments, e, user);
    var i :| 0 <= i < |r| && Manages(r[i], e) && r[i].user == user;
    forall i, j | 0 <= i < |r| && 0 <= j < |r| && Manages(r[i], e) && Manages(r[j], e) ensures i == j {}
  }

  /** What the invariant means for the filing of one live event. */
  lemma LiveEventIsFiled(s: State, e: Id)
    requires Sound(s) && e in s.events && s.events[e].deletedAt.None?
    ensures var event := s.events[e];
      && (event.main.Some? ==> event.main.value in s.mains && !s.mains[event.main.value].deleted)
      && (event.sub.Some? ==> event.sub.value in s.subs && !s.subs[event.sub.value].deleted
                              && event.main == Some(s.subs[event.sub.value].main))
  {
    assert LiveEvent(s, e);
  }

  /** A live sub category belongs to a live main category. */
  lemma LiveSubIsFiled(s: State, u: Id)
    requires Sound(s) && u in s.subs && !s.subs[u].deleted
    ensures s.subs[u].main in s.mains && !s.mains[s.subs[u].main].deleted
  {
    assert LiveSub(s, u);
  }

  /** What the invariant means for one live event: its active manager assignments are at most one, held by its organizer. */
  lemma SingleManager(s: State, e: Id, i: nat, j: nat)
    requires Sound(s) && i < |s.assignments| && j < |s.assignments|
    requires Manages(s.assignments[i], e) && Manages(s.assignments[j], e)
    ensures i == j && LiveEvent(s, e) && s.events[e].organizer == Some(s.assignments[i].user)
  {}

  /** Deleting a main category leaves nothing live under it and touches nothing else. */
  lemma DeleteMainCascades(s: State, id: Id, now: int)
    requires Sound(s) && LiveMain(s, id)
    ensures var next := Apply(s, DeleteMain(id, now)).value;
      && !LiveMain(next, id)
      && (forall u | LiveSub(next, u) :: next.subs[u].main != id)
      && (forall e | e in s.events :: LiveEvent(next, e) <==> LiveEvent(s, e) && s.events[e].main != Some(id))
      && (forall e | e in s.events && s.events[e].main != Some(id) && LiveEvent(s, e) :: next.events[e] == s.events[e])
      && (forall i | 0 <= i < |s.assignments| :: next.assignments[i] == Revoke(s.assignments[i], UnderMain(s, id)))
  {}

  /* ---- The services ---- */

  class CategoryService {
    var mains: map<Id, MainCategory>
    var subs: map<Id, SubCategory>
    var events: map<Id, Event>
    var assignments: seq<Assignment>

    constructor ()
      ensures Valid() && mains == map[] && subs == map[] && events == map[] && assignments == []
    {
      mains, subs, events, assignments := map[], map[], map[], [];
    }

    function View(): State
      reads this
    {
      State(mains, subs, events, assignments)
    }

    ghost predicate Valid()
      reads this
    {
      Sound(View())
    }

    /** The operation happened and is in order, or nothing changed. */
    twostate predicate Did(op: Op, ok: bool)
      reads this
    {
      && (ok <==> Apply(old(View()), op).Some?)
      && View() == (if ok then Apply(old(View()), op).value else old(View()))
    }

    method CreateMainCategory(id: Id, active: bool) returns (ok: bool)
      requires Valid()
      modifies this
      ensures Valid() && Did(CreateMain(id, active), ok)
    {
      if id in mains {
        return false;
      }
      OpKeepsSound(View(), CreateMain(id, active));
      mains := mains[id := MainCategory(false, active)];
      ok := true;
    }

    /** Soft-deletes the events filed under the category, its sub categories, and revokes the events' assignments. */
    method DeleteMainCategory(id: Id, now: int) returns (ok: bool)
      requires Valid()
      modifies this
      ensures Valid() && Did(DeleteMain(id, now), ok)
    {
      if id !in mains || mains[id].deleted {
        return false;
      }
      OpKeepsSound(View(), DeleteMain(id, now));
      events := DeleteEvents(events, UnderMain(View(), id), now);
      subs := map u | u in subs :: if subs[u].main == id && !subs[u].deleted then SubCategory(id, true, false) else subs[u];
      RevokeAssignments(DeletedAt(events, now));
      mains := mains[id := MainCategory(true, false)];
      ok := true;
    }

    method RevokeAssignments(gone: set<Id>)
      modifies this`assignments
      ensures assignments == RevokeAll(old(assignments), gone)
    {
      for i := 0 to |assignments|
        invariant |assignments| == |old(assignments)|
        invariant forall j | 0 <= j < |assignments| ::
                    assignments[j] == if j < i then Revoke(old(assignments)[j], gone) else old(assignments)[j]
      {
        if assignments[i].active && assignments[i].event.Some? && assignments[i].event.value in gone {
          assignments := assignments[i := assignments[i].(active := false)];
        }
      }
    }

    method CreateSubCategory(id: Id, parent: Id, active: bool) returns (ok: bool)
      requires Valid()
      modifies this
      ensures Valid() && Did(CreateSub(id, parent, active), ok)
    {
      if id in subs || parent !in mains || mains[parent].deleted {
        return false;
      }
      OpKeepsSound(View(), CreateSub(id, parent, active));
      subs := subs[id := SubCategory(parent, false, active)];
      ok := true;
    }

    /** Moves a sub category only when no event, deleted or not, was ever filed under it. */
    method UpdateSubCategory(id: Id, newParent: Field<Option<Id>>, active: bool) returns (ok: bool)
      requires Valid()
      modifies this
      ensures Valid() && Did(UpdateSub(id, newParent, active), ok)
    {
      if id !in subs || subs[id].deleted {
        return false;
      }
      var op := UpdateSub(id, newParent, active);
      var target := Patched(Some(subs[id].main), newParent);
      if target != Some(subs[id].main) {
        if target.None? || target.value !in mains || mains[target.value].deleted {
          return false;
        }
        if exists e :: e in events && events[e].sub == Some(id) {
          assert UnderSub(View(), id) != {} by {
            var e :| e in events && events[e].sub == Some(id);
            assert e in UnderSub(View(), id);
          }
          return false;
        }
        assert UnderSub(View(), id) == {};
      }
      OpKeepsSound(View(), op);
      subs := subs[id := SubCategory(target.value, false, active)];
      ok := true;
    }

    method DeleteSubCategory(id: Id, now: int) returns (ok: bool)
      requires Valid()
      modifies this
      ensures Valid() && Did(DeleteSub(id, now), ok)
    {
      if id !in subs || subs[id].deleted {
        return false;
      }
      OpKeepsSound(View(), DeleteSub(id, now));
      events := DeleteEvents(events, UnderSub(View(), id), now);
      RevokeAssignments(DeletedAt(events, now));
      subs := subs[id := subs[id].(deleted := true, active := false)];
      ok := true;
    }

    /** Keeps the first active manager assignment of the user for the event and revokes the other ones. */
    method RevokeOtherManagers(e: Id, user: User) returns (selected: bool)
      modifies this`assignments
      ensures assignments == RevokeOthers(old(assignments), e, user, false)
      ensures selected <==> HasManager(old(assignments), e, user)
    {
      selected := false;
      for i := 0 to |assignments|
        invariant |assignments| == |old(assignments)| && assignments[i..] == old(assignments)[i..]
        invariant RevokeOthers(old(assignments), e, user, false)
                  == assignments[..i] + RevokeOthers(old(assignments)[i..], e, user, selected)
        invariant selected <==> exists j | 0 <= j < i :: Manages(old(assignments)[j], e) && old(assignments)[j].user == user
      {
        ghost var next := assignments[i := RevokeOne(assignments[i], e, user, selected)];
        RevokeNext(old(assignments), assignments, i, e, user, selected);
        if Manages(assignments[i], e) {
          if assignments[i].user == user && !selected {
            selected := true;
          } else {
            assignments := assignments[i := assignments[i].(active := false)];
          }
        }
        assert assignments == next;
      }
    }

    /** Makes the user the event's only active manager and its organizer. */
    method AssignEventManager(e: Id, user: User, admin: bool, eligible: bool) returns (ok: bool)
      modifies this`assignments, this`events
      ensures ok <==> admin && eligible && LiveEvent(old(View()), e)
      ensures View() == if ok then WithManager(old(View()), e, user) else old(View())
    {
      if !admin || e !in events || events[e].deletedAt.Some? || !eligible {
        return false;
      }
      var selected := RevokeOtherManagers(e, user);
      events := events[e := events[e].(organizer := Some(user))];
      if !selected {
        assignments := assignments + [Assignment(user, EventManager, Some(e), true)];
      }
      ok := true;
    }

    method CreateNewEvent(id: Id, main: Option<Id>, sub: Option<Id>, organizer: Option<User>, admin: bool, eligible: bool)
        returns (ok: bool)
      requires Valid() && id !in events
      modifies this
      ensures Valid() && Did(CreateEvent(id, main, sub, organizer, admin, eligible), ok)
    {
      if organizer.Some? && !eligible {
        return false;
      }
      var filed := Resolve(View(), main, sub, true, false);
      if filed.NotFiled? {
        return false;
      }
      var before := events;
      events := events[id := Event(filed.main, filed.sub, organizer, None, false)];
      ok := true;
      if organizer.Some? {
        ok := AssignEventManager(id, organizer.value, admin, eligible);
        if !ok {
          events := before;
        }
      }
      if ok {
        OpKeepsSound(old(View()), CreateEvent(id, main, sub, organizer, admin, eligible));
      }
    }

    method Refile(id: Id, main: Field<Option<Id>>, sub: Field<Option<Id>>) returns (ok: bool)
      requires id in events
      modifies this`events
      ensures ok <==> Refiled(old(View()), id, main, sub).Some?
      ensures View() == if ok then Refiled(old(View()), id, main, sub).value else old(View())
    {
      if main.Set? || sub.Set? {
        var event := events[id];
        var filed := Resolve(View(), Patched(event.main, main), Patched(event.sub, sub), false, false);
        if filed.NotFiled? || (filed.main.Some? && filed.sub.None?) {
          return false;
        }
        events := events[id := event.(main := if filed.main.Some? then filed.main else event.main,
                                      sub := if filed.sub.Some? then filed.sub else event.sub)];
      }
      ok := true;
    }

    method UpdateEventFields(id: Id, main: Field<Option<Id>>, sub: Field<Option<Id>>, organizer: Field<Option<User>>, admin: bool, eligible: bool)
        returns (ok: bool)
      requires Valid()
      modifies this
      ensures Valid() && Did(UpdateEvent(id, main, sub, organizer, admin, eligible), ok)
    {
      var eventsBefore, assignmentsBefore := events, assignments;
      if id !in events || events[id].deletedAt.Some? {
        return false;
      }
      if organizer.Set? {
        if organizer.value.None? {
          return false;
        }
        ok := AssignEventManager(id, organizer.value.value, admin, eligible);
        if !ok {
          return;
        }
      }
      ok := Refile(id, main, sub);
      if ok {
        OpKeepsSound(old(View()), UpdateEvent(id, main, sub, organizer, admin, eligible));
      } else {
        events, assignments := eventsBefore, assignmentsBefore;
      }
    }

    method CloneEventRow(id: Id, main: Option<Id>, sub: Option<Id>, organizer: Option<User>, actor: User, admin: bool, eligible: bool)
        returns (ok: bool)
      requires Valid() && id !in events
      modifies this
      ensures Valid() && Did(CloneEvent(id, main, sub, organizer, actor, admin, eligible), ok)
    {
      var filed := Resolve(View(), main, sub, false, false);
      if filed.NotFiled? || (admin && organizer.None?) || (!admin && organizer !in {None, Some(actor)}) {
        return false;
      }
      var before := events;
      var manager := if admin then organizer.value else actor;
      events := events[id := Event(filed.main, filed.sub, Some(manager), None, false)];
      if admin {
        ok := AssignEventManager(id, manager, admin, eligible);
        if !ok {
          events := before;
          return;
        }
      } else {
        assignments := assignments + [Assignment(actor, EventManager, Some(id), true)];
      }
      OpKeepsSound(old(View()), CloneEvent(id, main, sub, organizer, actor, admin, eligible));
      ok := true;
    }

    method DeleteOneEvent(id: Id, admin: bool, now: int) returns (ok: bool)
      requires Valid()
      modifies this
      ensures Valid() && Did(DeleteEvent(id, admin, now), ok)
    {
      if !admin || id !in events || events[id].deletedAt.Some? {
        return false;
      }
      OpKeepsSound(View(), DeleteEvent(id, admin, now));
      events := events[id := events[id].(deletedAt := Some(now), archived := true)];
      RevokeAssignments({id});
      ok := true;
    }
  }
}
