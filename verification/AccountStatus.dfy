/** Activating and disabling accounts: who may manage whom, and concurrent changes under ordered row locks. */
module AccountStatus {
  import opened Common
  import opened Digraph

  type User = nat
  type EventId = nat
  type Organization = nat
  type Tx = nat

  /* ---- Permissions ---- */

  datatype Role =
    | SuperAdmin | OperationsAdmin | FinanceAdmin | FinanceOperator | FinanceAuditor
    | EventManager | EventCoordinator | StaffLead | StaffMember

  const GLOBAL_ROLES: set<Role> := {SuperAdmin, OperationsAdmin, FinanceAdmin, FinanceOperator, FinanceAuditor}

  /** An active role assignment, global or for one event. */
  datatype Assignment = Assignment(role: Role, event: Option<EventId>)
  datatype Review = Approved | Rejected | Undecided
  datatype Application = Application(event: EventId, volunteer: bool, review: Review)

  type Roles = User -> seq<Assignment>

  /** Everything else the permission check looks up; it may differ from one check to the next. */
  datatype Facts = Facts(
    managers: set<User>,
    liveEvents: set<EventId>,
    organization: EventId -> Option<Organization>,
    applications: User -> seq<Application>,
    registrations: User -> seq<EventId>)

  predicate HasGlobal(assignments: seq<Assignment>, role: Role) {
    role in GLOBAL_ROLES && Assignment(role, None) in assignments
  }

  predicate IsSuper(roles: Roles, u: User) {
    HasGlobal(roles(u), SuperAdmin)
  }

  function RolesOf(assignments: seq<Assignment>): set<Role> {
    set a | a in assignments :: a.role
  }

  function Controlled(assignments: seq<Assignment>): set<EventId> {
    set a | a in assignments && a.role == EventManager && a.event.Some? :: a.event.value
  }

  /** The applications that count: to live events and not rejected. */
  predicate Counts(facts: Facts, a: Application) {
    a.event in facts.liveEvents && a.review != Rejected
  }

  /** Whether an event manager's own events cover everything the target takes part in. */
  predicate CoversTarget(facts: Facts, controlled: set<EventId>, target: User, assignments: seq<Assignment>) {
    var live := controlled * facts.liveEvents;
    var applications := facts.applications(target);
    var controlledOrgs := set e | e in live :: facts.organization(e);
    var participating := set e | e in facts.registrations(target) && e in facts.liveEvents :: facts.organization(e);
    && (exists a :: a in applications && Counts(facts, a) && a.volunteer && a.review == Approved && a.event in live)
    && participating <= controlledOrgs
    && (forall a | a in applications && Counts(facts, a) :: a.event in live)
    && (forall a | a in assignments :: a.role == StaffMember && a.event.Some? && a.event.value in live)
  }

  predicate CanManage(roles: Roles, facts: Facts, actor: User, actorActive: bool, target: User) {
    if !actorActive || actor == target then false
    else if HasGlobal(roles(actor), SuperAdmin) then true
    else
      var targetRoles := RolesOf(roles(target)) + (if target in facts.managers then {EventManager} else {});
      if HasGlobal(roles(actor), OperationsAdmin) && targetRoles == {EventManager} then true
      else if HasGlobal(roles(actor), FinanceAdmin) && targetRoles != {} && targetRoles <= {FinanceOperator, FinanceAuditor} then true
      else
        var controlled := Controlled(roles(actor));
        controlled != {} && targetRoles <= {StaffMember} && CoversTarget(facts, controlled, target, roles(target))
  }

  /** Only a super admin can manage a super admin. */
  lemma OnlySuperManagesSuper(roles: Roles, facts: Facts, actor: User, actorActive: bool, target: User)
    requires CanManage(roles, facts, actor, actorActive, target) && IsSuper(roles, target)
    ensures IsSuper(roles, actor) && actorActive && actor != target
  {
    assert Assignment(SuperAdmin, None) in roles(target);
    assert SuperAdmin in RolesOf(roles(target));
  }

  /* ---- Who may change whose account ---- */

  /** All the target's roles are event manager, and it has that role or is marked as one. */
  predicate JustEventManager(facts: Facts, target: User, assignments: seq<Assignment>) {
    (forall a | a in assignments :: a.role == EventManager) && (assignments != [] || target in facts.managers)
  }

  /** All its roles are finance operator or finance auditor, and it has one. */
  predicate JustFinanceStaff(facts: Facts, target: User, assignments: seq<Assignment>) {
    target !in facts.managers && assignments != [] && forall a | a in assignments :: a.role == FinanceOperator || a.role == FinanceAuditor
  }

  /** The event is live and the account manages it. */
  predicate ManagesLive(facts: Facts, assignments: seq<Assignment>, e: EventId) {
    e in facts.liveEvents && Assignment(EventManager, Some(e)) in assignments
  }

  /** The target only helps at events the actor manages: it is staff at those alone, has an approved volunteer application
      to one, none that counts to another event, and takes part only in events of their organizations. */
  ghost predicate JustOwnHelper(facts: Facts, actor: seq<Assignment>, target: User, assignments: seq<Assignment>) {
    && target !in facts.managers
    && (forall a | a in assignments :: a.role == StaffMember && a.event.Some? && ManagesLive(facts, actor, a.event.value))
    && (exists a | a in facts.applications(target) :: a.volunteer && a.review == Approved && ManagesLive(facts, actor, a.event))
    && (forall a | a in facts.applications(target) && a.event in facts.liveEvents && a.review != Rejected ::
          ManagesLive(facts, actor, a.event))
    && (forall e | e in facts.registrations(target) && e in facts.liveEvents ::
          exists f :: ManagesLive(facts, actor, f) && facts.organization(f) == facts.organization(e))
  }

  ghost predicate Entitled(facts: Facts, actor: seq<Assignment>, target: User, assignments: seq<Assignment>) {
    || Assignment(SuperAdmin, None) in actor
    || (Assignment(OperationsAdmin, None) in actor && JustEventManager(facts, target, assignments))
    || (Assignment(FinanceAdmin, None) in actor && JustFinanceStaff(facts, target, assignments))
    || JustOwnHelper(facts, actor, target, assignments)
  }

  lemma CoversMeans(facts: Facts, actor: seq<Assignment>, target: User, assignments: seq<Assignment>)
    ensures CoversTarget(facts, Controlled(actor), target, assignments) && target !in facts.managers
            <==> JustOwnHelper(facts, actor, target, assignments)
  {
    var live := Controlled(actor) * facts.liveEvents;
    forall e ensures e in live <==> ManagesLive(facts, actor, e) {
      if e in live {
        var a :| a in actor && a.role == EventManager && a.event.Some? && a.event.value == e;
        assert a == Assignment(EventManager, Some(e));
      }
    }
    var orgs := set e | e in live :: facts.organization(e);
    var participating := set e | e in facts.registrations(target) && e in facts.liveEvents :: facts.organization(e);
    if participating <= orgs {
      forall e | e in facts.registrations(target) && e in facts.liveEvents
        ensures exists f :: ManagesLive(facts, actor, f) && facts.organization(f) == facts.organization(e)
      {
        assert facts.organization(e) in participating;
        var f :| f in live && facts.organization(f) == facts.organization(e);
      }
    }
  }

  /** An active account can manage another one exactly when it is entitled to. */
  lemma ManagesIffEntitled(roles: Roles, facts: Facts, actor: User, actorActive: bool, target: User)
    ensures CanManage(roles, facts, actor, actorActive, target)
            <==> actorActive && actor != target && Entitled(facts, roles(actor), target, roles(target))
  {
    CoversMeans(facts, roles(actor), target, roles(target));
    RolesMean(facts, target, roles(target));
  }

  predicate Manager(actor: seq<Assignment>) {
    exists a :: a in actor && a.role == EventManager && a.event.Some?
  }

  lemma LiveManager(facts: Facts, actor: seq<Assignment>, e: EventId)
    requires ManagesLive(facts, actor, e)
    ensures Manager(actor)
  {
    var a := Assignment(EventManager, Some(e));
    assert a in actor;
  }

  /** The same by kind of actor. */
  lemma EntitledByKind(facts: Facts, actor: seq<Assignment>, target: User, assignments: seq<Assignment>)
    ensures Assignment(SuperAdmin, None) in actor ==> Entitled(facts, actor, target, assignments)
    ensures Assignment(SuperAdmin, None) !in actor && Assignment(FinanceAdmin, None) !in actor
            && Assignment(OperationsAdmin, None) in actor && !Manager(actor) ==>
            (Entitled(facts, actor, target, assignments) <==> JustEventManager(facts, target, assignments))
    ensures Assignment(SuperAdmin, None) !in actor && Assignment(OperationsAdmin, None) !in actor
            && Assignment(FinanceAdmin, None) in actor && !Manager(actor) ==>
            (Entitled(facts, actor, target, assignments) <==> JustFinanceStaff(facts, target, assignments))
    ensures Assignment(SuperAdmin, None) !in actor && Assignment(OperationsAdmin, None) !in actor
            && Assignment(FinanceAdmin, None) !in actor ==>
            (Entitled(facts, actor, target, assignments) <==> JustOwnHelper(facts, actor, target, assignments))
    ensures !Manager(actor) ==> !JustOwnHelper(facts, actor, target, assignments)
  {
    if JustOwnHelper(facts, actor, target, assignments) {
      var a :| a in facts.applications(target) && ManagesLive(facts, actor, a.event);
      LiveManager(facts, actor, a.event);
    }
  }

  lemma RolesMean(facts: Facts, target: User, assignments: seq<Assignment>)
    ensures var all := RolesOf(assignments) + (if target in facts.managers then {EventManager} else {});
      && (all == {EventManager} <==> JustEventManager(facts, target, assignments))
      && (all != {} && all <= {FinanceOperator, FinanceAuditor} <==> JustFinanceStaff(facts, target, assignments))
      && (all <= {StaffMember} <==> target !in facts.managers && forall a | a in assignments :: a.role == StaffMember)
  {
    forall a | a in assignments ensures a.role in RolesOf(assignments) {}
    if assignments != [] {
      assert assignments[0].role in RolesOf(assignments);
    }
  }

  /* ---- Transactions ---- */

  datatype Phase =
    | Locking(todo: seq<User>)   // the account rows still to lock, in id order
    | Decided                    // both rows locked and every check passed
    | Finished

  datatype Session = Session(actor: User, target: User, wanted: bool, held: set<User>, phase: Phase)
  datatype System = System(active: map<User, bool>, sessions: map<Tx, Session>)

  datatype Step =
    | Begin(tx: Tx, actor: User, target: User, wanted: bool)
    | Lock(tx: Tx)
    | Decide(tx: Tx, facts: Facts)
    | Commit(tx: Tx)
    | Abort(tx: Tx)

  /** The existing rows among the two accounts, in id order and without repetition. */
  function LockOrder(active: map<User, bool>, actor: User, target: User): seq<User> {
    var low, high := if actor <= target then actor else target, if actor <= target then target else actor;
    (if low in active then [low] else []) + (if high in active && high != low then [high] else [])
  }

  predicate Passes(roles: Roles, facts: Facts, active: map<User, bool>, session: Session) {
    && session.actor in active && session.target in active && session.actor != session.target
    && CanManage(roles, facts, session.actor, active[session.actor], session.target)
    && active[session.target] != session.wanted
  }

  predicate Enabled(s: System, step: Step) {
    match step
    case Begin(tx, _, _, _) => tx !in s.sessions
    case Lock(tx) =>
      tx in s.sessions && s.sessions[tx].phase.Locking? && s.sessions[tx].phase.todo != []
      && forall u | u in s.sessions && u != tx :: s.sessions[tx].phase.todo[0] !in s.sessions[u].held
    case Decide(tx, _) => tx in s.sessions && s.sessions[tx].phase == Locking([])
    case Commit(tx) => tx in s.sessions && s.sessions[tx].phase == Decided
    case Abort(tx) => tx in s.sessions && s.sessions[tx].phase != Finished
  }

  function Next(roles: Roles, s: System, step: Step): System
    requires Enabled(s, step)
  {
    match step
    case Begin(tx, actor, target, wanted) =>
      s.(sessions := s.sessions[tx := Session(actor, target, wanted, {}, Locking(LockOrder(s.active, actor, target)))])
    case Lock(tx) =>
      var session := s.sessions[tx];
      s.(sessions := s.sessions[tx := session.(held := session.held + {session.phase.todo[0]}, phase := Locking(session.phase.todo[1..]))])
    case Decide(tx, facts) =>
      var session := s.sessions[tx];
      s.(sessions := s.sessions[tx := if Passes(roles, facts, s.active, session) then session.(phase := Decided)
                                      else session.(held := {}, phase := Finished)])
    case Commit(tx) =>
      var session := s.sessions[tx];
      System(s.active[session.target := session.wanted], s.sessions[tx := session.(held := {}, phase := Finished)])
    case Abort(tx) => s.(sessions := s.sessions[tx := s.sessions[tx].(held := {}, phase := Finished)])
  }

  /* ---- The invariant ---- */

  predicate Ascending(ids: seq<User>) {
    forall i, j | 0 <= i < j < |ids| :: ids[i] < ids[j]
  }

  ghost predicate SessionOk(roles: Roles, active: map<User, bool>, session: Session) {
    match session.phase
    case Locking(todo) =>
      && Ascending(todo) && (forall h, i | h in session.held && 0 <= i < |todo| :: h < todo[i])
      && (forall i | 0 <= i < |todo| :: todo[i] in active)
      && (forall u | u in {session.actor, session.target} && u in active :: u in session.held || u in todo)
    case Decided =>
      && session.actor in session.held && session.target in session.held
      && exists facts :: Passes(roles, facts, active, session)
    case Finished => session.held == {}
  }

  ghost predicate Invariant(roles: Roles, s: System) {
    && (forall t | t in s.sessions :: SessionOk(roles, s.active, s.sessions[t]))
    && (forall t, u | t in s.sessions && u in s.sessions && t != u :: s.sessions[t].held !! s.sessions[u].held)
  }

  ghost predicate SuperActive(roles: Roles, active: map<User, bool>) {
    exists u :: u in active && active[u] && IsSuper(roles, u)
  }

  /** A committed change was made by an account that is active, allowed to make it, and not its own target. */
  lemma CommitIsAuthorized(roles: Roles, s: System, tx: Tx)
    requires Invariant(roles, s) && Enabled(s, Commit(tx))
    ensures var session := s.sessions[tx];
            && session.actor in s.active && s.active[session.actor] && session.actor != session.target
            && Next(roles, s, Commit(tx)).active[session.actor]
            && exists facts :: CanManage(roles, facts, session.actor, true, session.target)
  {}

  lemma CommitKeepsInvariant(roles: Roles, s: System, tx: Tx)
    requires Invariant(roles, s) && Enabled(s, Commit(tx))
    ensures Invariant(roles, Next(roles, s, Commit(tx)))
  {
    var next := Next(roles, s, Commit(tx));
    assert SessionOk(roles, s.active, s.sessions[tx]);
    forall u | u in next.sessions ensures SessionOk(roles, next.active, next.sessions[u]) {
      assert SessionOk(roles, s.active, s.sessions[u]);
      if u != tx && s.sessions[u].phase == Decided {
        var facts :| Passes(roles, facts, s.active, s.sessions[u]);
        assert s.sessions[tx].target !in s.sessions[u].held;
        assert Passes(roles, facts, next.active, next.sessions[u]);
      }
    }
  }

  /** A step that changes no account keeps the invariant when its own session stays in order and takes only free locks. */
  lemma LocalKeepsInvariant(roles: Roles, s: System, tx: Tx, session: Session)
    requires Invariant(roles, s) && SessionOk(roles, s.active, session)
    requires forall u | u in s.sessions && u != tx :: session.held !! s.sessions[u].held
    ensures Invariant(roles, s.(sessions := s.sessions[tx := session]))
  {}

  lemma LockKeepsSession(roles: Roles, active: map<User, bool>, session: Session)
    requires SessionOk(roles, active, session) && session.phase.Locking? && session.phase.todo != []
    ensures SessionOk(roles, active, session.(held := session.held + {session.phase.todo[0]}, phase := Locking(session.phase.todo[1..])))
  {}

  lemma DecideKeepsSession(roles: Roles, facts: Facts, active: map<User, bool>, session: Session)
    requires SessionOk(roles, active, session) && session.phase == Locking([]) && Passes(roles, facts, active, session)
    ensures SessionOk(roles, active, session.(phase := Decided))
  {
    assert Passes(roles, facts, active, session.(phase := Decided));
  }

  lemma StepKeepsInvariant(roles: Roles, s: System, step: Step)
    requires Invariant(roles, s) && Enabled(s, step)
    ensures Invariant(roles, Next(roles, s, step))
  {
    var tx := step.tx;
    if tx in s.sessions {
      assert SessionOk(roles, s.active, s.sessions[tx]);
    }
    match step {
      case Begin(_, actor, target, wanted) =>
        LocalKeepsInvariant(roles, s, tx, Session(actor, target, wanted, {}, Locking(LockOrder(s.active, actor, target))));
      case Lock(_) =>
        var session := s.sessions[tx];
        LockKeepsSession(roles, s.active, session);
        LocalKeepsInvariant(roles, s, tx, session.(held := session.held + {session.phase.todo[0]}, phase := Locking(session.phase.todo[1..])));
      case Decide(_, facts) =>
        if Passes(roles, facts, s.active, s.sessions[tx]) {
          DecideKeepsSession(roles, facts, s.active, s.sessions[tx]);
          LocalKeepsInvariant(roles, s, tx, s.sessions[tx].(phase := Decided));
        } else {
          LocalKeepsInvariant(roles, s, tx, s.sessions[tx].(held := {}, phase := Finished));
        }
      case Commit(_) => CommitKeepsInvariant(roles, s, tx);
      case Abort(_) => LocalKeepsInvariant(roles, s, tx, s.sessions[tx].(held := {}, phase := Finished));
    }
  }

  lemma StepKeepsSuperActive(roles: Roles, s: System, step: Step)
    requires Invariant(roles, s) && Enabled(s, step) && SuperActive(roles, s.active)
    ensures SuperActive(roles, Next(roles, s, step).active)
  {
    var u :| u in s.active && s.active[u] && IsSuper(roles, u);
    var next := Next(roles, s, step);
    if step.Commit? && s.sessions[step.tx].target == u {
      var session := s.sessions[step.tx];
      assert SessionOk(roles, s.active, session);
      var facts :| Passes(roles, facts, s.active, session);
      OnlySuperManagesSuper(roles, facts, session.actor, s.active[session.actor], u);
      assert next.active[session.actor];
    } else {
      assert next.active[u];
    }
  }

  /* ---- Deadlock ---- */

  predicate Waits(s: System, t: Tx, u: Tx) {
    && t in s.sessions && u in s.sessions && t != u
    && s.sessions[t].phase.Locking? && s.sessions[t].phase.todo != [] && s.sessions[t].phase.todo[0] in s.sessions[u].held
  }

  /** u blocks t */
  ghost function BlocksGraph(s: System): (Tx, Tx) -> bool {
    (u: Tx, t: Tx) => Waits(s, t, u)
  }

  /** Locks are taken in id order, so transactions never wait for each other in a circle. */
  lemma NoDeadlock(roles: Roles, s: System, bound: User)
    requires Invariant(roles, s) && forall u | u in s.active :: u < bound
    ensures Acyclic(BlocksGraph(s))
  {
    var rank := map t | t in s.sessions ::
      if s.sessions[t].phase.Locking? && s.sessions[t].phase.todo != [] then bound - s.sessions[t].phase.todo[0] else 0;
    var ranks: map<Tx, nat> := map t | t in s.sessions :: if rank[t] >= 0 then rank[t] else 0;
    forall u, t | BlocksGraph(s)(u, t) ensures u in ranks && t in ranks && ranks[u] < ranks[t] {
      assert SessionOk(roles, s.active, s.sessions[t]) && SessionOk(roles, s.active, s.sessions[u]);
    }
    RankedIsAcyclic(BlocksGraph(s), ranks);
  }

  predicate CanStep(s: System, t: Tx) {
    Enabled(s, Lock(t)) || Enabled(s, Commit(t)) || (t in s.sessions && s.sessions[t].phase == Locking([]))
  }

  /** As long as some transaction is unfinished, some unfinished transaction can take its next step. */
  lemma Progress(roles: Roles, s: System, bound: User, unfinished: set<Tx>)
    requires Invariant(roles, s) && forall u | u in s.active :: u < bound
    requires unfinished == set t | t in s.sessions && s.sessions[t].phase != Finished
    requires unfinished != {}
    ensures exists t :: t in unfinished && CanStep(s, t)
  {
    if forall t | t in unfinished :: !CanStep(s, t) {
      NoDeadlock(roles, s, bound);
      forall t {:trigger HasPredecessor(BlocksGraph(s), unfinished, t)} | t in unfinished
        ensures HasPredecessor(BlocksGraph(s), unfinished, t)
      {
        StuckIsBlocked(roles, s, t, unfinished);
      }
      var t :| t in unfinished;
      BlockedSetHasCycle(BlocksGraph(s), unfinished, [t]);
    }
  }

  lemma StuckIsBlocked(roles: Roles, s: System, t: Tx, unfinished: set<Tx>)
    requires Invariant(roles, s) && t in s.sessions && s.sessions[t].phase != Finished && !CanStep(s, t)
    requires unfinished == set u | u in s.sessions && s.sessions[u].phase != Finished
    ensures HasPredecessor(BlocksGraph(s), unfinished, t)
  {
    var u :| u in s.sessions && u != t && s.sessions[t].phase.todo[0] in s.sessions[u].held;
    assert SessionOk(roles, s.active, s.sessions[u]);
    assert BlocksGraph(s)(u, t) && u in unfinished;
  }

  /* ---- Every interleaving ---- */

  ghost predicate IsRun(roles: Roles, states: seq<System>, steps: seq<Step>) {
    |states| == |steps| + 1
    && forall k | 0 <= k < |steps| :: Enabled(states[k], steps[k]) && states[k + 1] == Next(roles, states[k], steps[k])
  }

  lemma {:induction false} RunKeepsInvariant(roles: Roles, states: seq<System>, steps: seq<Step>, k: nat)
    requires IsRun(roles, states, steps) && states[0].sessions == map[] && k < |states|
    ensures Invariant(roles, states[k]) && states[k].active.Keys == states[0].active.Keys
    ensures SuperActive(roles, states[0].active) ==> SuperActive(roles, states[k].active)
  {
    if k > 0 {
      RunKeepsInvariant(roles, states, steps, k - 1);
      assert states[(k - 1) + 1] == Next(roles, states[k - 1], steps[k - 1]);
      StepKeepsInvariant(roles, states[k - 1], steps[k - 1]);
      if SuperActive(roles, states[0].active) {
        StepKeepsSuperActive(roles, states[k - 1], steps[k - 1]);
      }
      if steps[k - 1].Commit? {
        CommitIsAuthorized(roles, states[k - 1], steps[k - 1].tx);
        assert SessionOk(roles, states[k - 1].active, states[k - 1].sessions[steps[k - 1].tx]);
      }
    }
  }

  /** However status changes interleave, an active super admin always remains. */
  lemma SuperAdminSurvives(roles: Roles, states: seq<System>, steps: seq<Step>, k: nat)
    requires IsRun(roles, states, steps) && states[0].sessions == map[] && k < |states|
    requires SuperActive(roles, states[0].active)
    ensures SuperActive(roles, states[k].active)
  {
    RunKeepsInvariant(roles, states, steps, k);
  }

  /** Every committed change in a run was made by another account, active before and after the commit. */
  lemma EveryCommitIsAuthorized(roles: Roles, states: seq<System>, steps: seq<Step>, k: nat)
    requires IsRun(roles, states, steps) && states[0].sessions == map[] && k < |steps| && steps[k].Commit?
    ensures var session := states[k].sessions[steps[k].tx];
            && session.actor in states[k].active && states[k].active[session.actor] && states[k + 1].active[session.actor]
            && session.actor != session.target
            && exists facts :: Entitled(facts, roles(session.actor), session.target, roles(session.target))
  {
    RunKeepsInvariant(roles, states, steps, k);
    CommitIsAuthorized(roles, states[k], steps[k].tx);
    var session := states[k].sessions[steps[k].tx];
    var facts :| CanManage(roles, facts, session.actor, true, session.target);
    ManagesIffEntitled(roles, facts, session.actor, true, session.target);
  }

  /* ---- The service ---- */

  datatype Outcome = Changed | AlreadySo | ActorMissing | TargetMissing | OwnAccount | NotAllowed

  lemma ChangeKeepsSuperActive(roles: Roles, facts: Facts, active: map<User, bool>, session: Session)
    requires Passes(roles, facts, active, session) && SuperActive(roles, active)
    ensures SuperActive(roles, active[session.target := session.wanted])
  {
    if IsSuper(roles, session.target) {
      OnlySuperManagesSuper(roles, facts, session.actor, active[session.actor], session.target);
      assert IsSuper(roles, session.actor) && active[session.target := session.wanted][session.actor];
    } else {
      var u :| u in active && active[u] && IsSuper(roles, u);
      assert active[session.target := session.wanted][u];
    }
  }

  class AccountService {
    const roles: Roles
    var active: map<User, bool>

    constructor (roles: Roles, active: map<User, bool>)
      ensures this.roles == roles && this.active == active
    {
      this.roles, this.active := roles, active;
    }

    /** One status change run with both rows locked: it happens exactly when the transactions above would decide for it. */
    method UpdateAccountStatus(actor: User, target: User, wanted: bool, facts: Facts) returns (outcome: Outcome)
      modifies this`active
      ensures outcome == Changed <==> Passes(roles, facts, old(active), Session(actor, target, wanted, {}, Locking([])))
      ensures outcome == Changed <==>
              && actor in old(active) && target in old(active) && actor != target && old(active)[actor]
              && old(active)[target] != wanted && Entitled(facts, roles(actor), target, roles(target))
      ensures active == if outcome == Changed then old(active)[target := wanted] else old(active)
      ensures SuperActive(roles, old(active)) ==> SuperActive(roles, active)
      ensures outcome == ActorMissing <==> actor !in active
      ensures outcome == TargetMissing <==> actor in active && target !in active
      ensures outcome == OwnAccount <==> actor in active && actor == target
      ensures outcome == AlreadySo <==> MayChange(old(active), actor, target, facts) && old(active)[target] == wanted
    {
      var locked := LockOrder(active, actor, target);
      if actor !in locked {
        return ActorMissing;
      }
      if target !in locked {
        return TargetMissing;
      }
      if actor == target {
        return OwnAccount;
      }
      ManagesIffEntitled(roles, facts, actor, active[actor], target);
      if !CanManage(roles, facts, actor, active[actor], target) {
        return NotAllowed;
      }
      if active[target] == wanted {
        return AlreadySo;
      }
      if SuperActive(roles, active) {
        ChangeKeepsSuperActive(roles, facts, active, Session(actor, target, wanted, {}, Locking([])));
      }
      active := active[target := wanted];
      outcome := Changed;
    }

    predicate MayChange(active: map<User, bool>, actor: User, target: User, facts: Facts) {
      actor in active && target in active && actor != target && CanManage(roles, facts, actor, active[actor], target)
    }
  }
}
