/** Connections between two participants of an event: request, respond, block, unblock. */
module Connections {
  import opened Common

  type Id = nat
  type User = nat
  type Event = nat
  type Time = int

  datatype Status = Pending | Accepted | Rejected | Cancelled | Blocked
  datatype Intent = Connect | Discuss | Collaborate
  datatype Pair = Pair(event: Event, low: User, high: User)
  datatype Connection = Connection(pair: Pair, requestedBy: User, intent: Intent, status: Status, respondedAt: Option<Time>)
  type Table = map<Id, Connection>

  /** What the rest of the system says when an operation runs; it may differ from one operation to the next. */
  datatype Facts = Facts(eligible: set<(Event, User)>, registered: set<(Event, User)>, visible: set<(Event, User)>)

  datatype Problem = NotEligible | Yourself | Conflict | NotFound | NotYours | RecipientOnly | RequesterOnly | NotAllowed
  datatype Outcome = Done | Failed(problem: Problem)

  datatype Op =
    | Send(id: Id, event: Event, actor: User, other: User, intent: Intent, facts: Facts)
    | Respond(id: Id, actor: User, target: Status, now: Time, facts: Facts)
    | Block(id: Id, event: Event, actor: User, other: User, facts: Facts)
    | Unblock(event: Event, actor: User, other: User, facts: Facts)

  /** The two ends in the order of their ids, so that both directions name the same row. */
  function PairOf(event: Event, a: User, b: User): (p: Pair)
    ensures p.event == event && {p.low, p.high} == {a, b}
    ensures p.low <= p.high && (a != b ==> p.low < p.high)
  {
    if a < b then Pair(event, a, b) else Pair(event, b, a)
  }

  predicate IsEnd(p: Pair, user: User) {
    user == p.low || user == p.high
  }

  predicate WellFormed(c: Connection) {
    c.pair.low < c.pair.high && IsEnd(c.pair, c.requestedBy)
  }

  /** At most one row per event and unordered pair, ends ordered and distinct, the requester one of them. */
  ghost predicate Sound(t: Table) {
    && (forall id | id in t :: WellFormed(t[id]))
    && (forall i, j | i in t && j in t && t[i].pair == t[j].pair :: i == j)
  }

  predicate Joins(t: Table, id: Id, p: Pair) {
    id in t && t[id].pair == p
  }

  predicate HasRow(t: Table, p: Pair) {
    exists id | id in t :: Joins(t, id, p)
  }

  ghost function RowOf(t: Table, p: Pair): (id: Id)
    requires HasRow(t, p)
    ensures Joins(t, id, p)
  {
    var id :| id in t && Joins(t, id, p); id
  }

  lemma OnlyRow(t: Table, id: Id, p: Pair)
    requires Sound(t) && Joins(t, id, p)
    ensures HasRow(t, p) && RowOf(t, p) == id
  {}

  ghost predicate InStatus(t: Table, p: Pair, s: Status) {
    HasRow(t, p) && t[RowOf(t, p)].status == s
  }

  /** The participants a user is connected to with the given status. */
  function Linked(t: Table, event: Event, user: User, s: Status): set<User> {
    (set id | id in t && t[id].pair.event == event && t[id].pair.low == user && t[id].status == s :: t[id].pair.high)
    + (set id | id in t && t[id].pair.event == event && t[id].pair.high == user && t[id].status == s :: t[id].pair.low)
  }

  /** A participant appears in another's discovery list; `recommended` also drops dismissed and connected ones. */
  predicate Discoverable(t: Table, facts: Facts, event: Event, viewer: User, other: User, recommended: bool, dismissed: set<User>) {
    && (event, other) in facts.visible && other != viewer && (event, other) in facts.registered
    && other !in Linked(t, event, viewer, Blocked)
    && (recommended ==> other !in dismissed && other !in Linked(t, event, viewer, Accepted))
  }

  /** The profile page of another participant opens. */
  predicate ProfileOpens(t: Table, facts: Facts, event: Event, viewer: User, other: User) {
    (event, other) in facts.visible && other != viewer && (event, other) in facts.registered
    && other !in Linked(t, event, viewer, Blocked)
  }

  predicate MayBecome(from: Status, to: Status) {
    (from == Pending && to != Pending) || (from == Accepted && to == Blocked)
  }

  /* ---- One operation ---- */

  ghost function SendOutcome(t: Table, op: Op): Outcome
    requires op.Send?
  {
    var p := PairOf(op.event, op.actor, op.other);
    if (op.event, op.actor) !in op.facts.eligible || (op.event, op.other) !in op.facts.eligible then Failed(NotEligible)
    else if op.actor == op.other then Failed(Yourself)
    else if InStatus(t, p, Pending) || InStatus(t, p, Accepted) || InStatus(t, p, Blocked) then Failed(Conflict)
    else if !ProfileOpens(t, op.facts, op.event, op.actor, op.other) then Failed(NotFound)
    else if !HasRow(t, p) && op.id in t then Failed(Conflict)
    else Done
  }

  function RespondOutcome(t: Table, op: Op): Outcome
    requires op.Respond?
  {
    if op.id !in t then Failed(NotFound)
    else if !IsEnd(t[op.id].pair, op.actor) then Failed(NotYours)
    else if (t[op.id].pair.event, op.actor) !in op.facts.eligible then Failed(NotEligible)
    else if op.target in {Accepted, Rejected} && op.actor == t[op.id].requestedBy then Failed(RecipientOnly)
    else if op.target == Cancelled && op.actor != t[op.id].requestedBy then Failed(RequesterOnly)
    else if !MayBecome(t[op.id].status, op.target) then Failed(NotAllowed)
    else Done
  }

  function BlockOutcome(t: Table, op: Op): Outcome
    requires op.Block?
  {
    if (op.event, op.other) !in op.facts.eligible then Failed(NotEligible)
    else if op.actor == op.other then Failed(Yourself)
    else if !HasRow(t, PairOf(op.event, op.actor, op.other)) && op.id in t then Failed(Conflict)
    else Done
  }

  ghost function UnblockOutcome(t: Table, op: Op): Outcome
    requires op.Unblock?
  {
    if (op.event, op.actor) !in op.facts.eligible then Failed(NotEligible)
    else if op.actor == op.other then Failed(Yourself)
    else if !InStatus(t, PairOf(op.event, op.actor, op.other), Blocked) then Failed(NotFound)
    else Done
  }

  ghost function OutcomeOf(t: Table, op: Op): Outcome {
    match op
    case Send(_, _, _, _, _, _) => SendOutcome(t, op)
    case Respond(_, _, _, _, _) => RespondOutcome(t, op)
    case Block(_, _, _, _, _) => BlockOutcome(t, op)
    case Unblock(_, _, _, _) => UnblockOutcome(t, op)
  }

  /** The row a request leaves: a new one, or the rejected or cancelled one opened again. */
  ghost function AfterSend(t: Table, op: Op): Table
    requires op.Send?
  {
    var p := PairOf(op.event, op.actor, op.other);
    t[(if HasRow(t, p) then RowOf(t, p) else op.id) := Connection(p, op.actor, op.intent, Pending, None)]
  }

  /** The row a block leaves: a new one, or the existing one with nothing but its status changed. */
  ghost function AfterBlock(t: Table, op: Op): Table
    requires op.Block?
  {
    var p := PairOf(op.event, op.actor, op.other);
    if HasRow(t, p) then t[RowOf(t, p) := t[RowOf(t, p)].(status := Blocked)]
    else t[op.id := Connection(p, op.actor, Connect, Blocked, None)]
  }

  ghost function Apply(t: Table, op: Op): Table {
    if OutcomeOf(t, op) != Done then t
    else match op
      case Send(_, _, _, _, _, _) => AfterSend(t, op)
      case Respond(_, _, _, _, _) => t[op.id := t[op.id].(status := op.target, respondedAt := Some(op.now))]
      case Block(_, _, _, _, _) => AfterBlock(t, op)
      case Unblock(_, _, _, _) => t - {RowOf(t, PairOf(op.event, op.actor, op.other))}
  }

  ghost function Run(t: Table, ops: seq<Op>): Table {
    if ops == [] then t else Apply(Run(t, ops[..|ops| - 1]), ops[|ops| - 1])
  }

  lemma OpKeepsSound(t: Table, op: Op)
    requires Sound(t)
    ensures Sound(Apply(t, op))
  {}

  /** Every run keeps one well-formed row per pair. */
  lemma {:induction false} RunKeepsSound(t: Table, ops: seq<Op>)
    requires Sound(t)
    ensures Sound(Run(t, ops))
  {
    if ops != [] {
      RunKeepsSound(t, ops[..|ops| - 1]);
      OpKeepsSound(Run(t, ops[..|ops| - 1]), ops[|ops| - 1]);
    }
  }

  /* ---- What the history of a pair says about its row ---- */

  /** A successful step, as it would be told afterwards. */
  datatype Entry =
    | Requested(pair: Pair, who: User)
    | Answered(pair: Pair, who: User, answer: Status)
    | Barred(pair: Pair, who: User)
    | Lifted(pair: Pair, who: User)

  ghost function EntryOf(t: Table, op: Op): Entry
    requires OutcomeOf(t, op) == Done
  {
    match op
    case Send(_, event, actor, other, _, _) => Requested(PairOf(event, actor, other), actor)
    case Respond(id, actor, target, _, _) =>
      if target == Blocked then Barred(t[id].pair, actor) else Answered(t[id].pair, actor, target)
    case Block(_, event, actor, other, _) => Barred(PairOf(event, actor, other), actor)
    case Unblock(event, actor, other, _) => Lifted(PairOf(event, actor, other), actor)
  }

  /** What happened to one pair, in order. */
  ghost function History(t: Table, ops: seq<Op>, p: Pair): seq<Entry> {
    if ops == [] then []
    else
      var init, op := ops[..|ops| - 1], ops[|ops| - 1];
      var before := Run(t, init);
      if OutcomeOf(before, op) == Done && EntryOf(before, op).pair == p then History(t, init, p) + [EntryOf(before, op)]
      else History(t, init, p)
  }

  /** A row with this status and requester is what the last entries of a pair's history call for. */
  predicate Explains(h: seq<Entry>, p: Pair, requester: User, s: Status) {
    var n := |h|;
    match s
    case Pending => n >= 1 && h[n - 1] == Requested(p, requester)
    case Blocked => n >= 1 && h[n - 1].Barred? && h[n - 1].pair == p && IsEnd(p, h[n - 1].who)
    case answer =>
      && n >= 2 && h[n - 2] == Requested(p, requester)
      && h[n - 1].Answered? && h[n - 1].pair == p && h[n - 1].answer == answer && IsEnd(p, h[n - 1].who)
      && (h[n - 1].who == requester <==> answer == Cancelled)
  }

  predicate NothingLeft(h: seq<Entry>) {
    h == [] || h[|h| - 1].Lifted?
  }

  /** The row of a pair, or its absence, agrees with the pair's history. */
  ghost predicate Agrees(t: Table, p: Pair, h: seq<Entry>) {
    if HasRow(t, p) then Explains(h, p, t[RowOf(t, p)].requestedBy, t[RowOf(t, p)].status) else NothingLeft(h)
  }

  lemma SameRow(t: Table, t': Table, p: Pair)
    requires Sound(t) && Sound(t')
    requires forall id :: Joins(t, id, p) <==> Joins(t', id, p)
    requires forall id | Joins(t, id, p) && Joins(t', id, p) :: t'[id] == t[id]
    ensures HasRow(t, p) <==> HasRow(t', p)
    ensures HasRow(t, p) ==> RowOf(t, p) == RowOf(t', p) && t'[RowOf(t, p)] == t[RowOf(t, p)]
  {}

  /** A step about one pair leaves the rows of all others alone. */
  lemma OthersUntouched(t: Table, op: Op, p: Pair)
    requires Sound(t) && (OutcomeOf(t, op) == Done ==> EntryOf(t, op).pair != p)
    ensures HasRow(Apply(t, op), p) <==> HasRow(t, p)
    ensures HasRow(t, p) ==> RowOf(Apply(t, op), p) == RowOf(t, p) && Apply(t, op)[RowOf(t, p)] == t[RowOf(t, p)]
  {}

  lemma StepAgrees(t: Table, op: Op, h: seq<Entry>)
    requires Sound(t) && OutcomeOf(t, op) == Done
    requires Agrees(t, EntryOf(t, op).pair, h)
    ensures Agrees(Apply(t, op), EntryOf(t, op).pair, h + [EntryOf(t, op)])
  {
    var p, t' := EntryOf(t, op).pair, Apply(t, op);
    OpKeepsSound(t, op);
    match op
    case Send(id, _, _, _, _, _) => OnlyRow(t', if HasRow(t, p) then RowOf(t, p) else id, p);
    case Respond(id, _, _, _, _) =>
      OnlyRow(t, id, p);
      OnlyRow(t', id, p);
    case Block(id, _, _, _, _) => OnlyRow(t', if HasRow(t, p) then RowOf(t, p) else id, p);
    case Unblock(_, _, _, _) =>
      forall i | i in t' ensures !Joins(t', i, p) {
        if Joins(t, i, p) {
          OnlyRow(t, i, p);
        }
      }
  }

  /** From an empty table, a pair has a row exactly when its history is not empty and does not end with an unblock, and
      the row is what the history calls for: a pending row was requested last; an accepted or rejected one was answered,
      right after its latest request, by the end that did not make it; a cancelled one by the end that did. */
  lemma {:induction false} RunAgrees(ops: seq<Op>, p: Pair)
    ensures Sound(Run(map[], ops))
    ensures Agrees(Run(map[], ops), p, History(map[], ops, p))
  {
    RunKeepsSound(map[], ops);
    if ops != [] {
      var init, op := ops[..|ops| - 1], ops[|ops| - 1];
      var before := Run(map[], init);
      RunAgrees(init, p);
      if OutcomeOf(before, op) == Done && EntryOf(before, op).pair == p {
        StepAgrees(before, op, History(map[], init, p));
      } else {
        OthersUntouched(before, op, p);
      }
    }
  }

  /** An accepted connection was accepted by the end that did not request it, after the latest request. */
  lemma AcceptedByTheOther(ops: seq<Op>, id: Id)
    requires id in Run(map[], ops) && Run(map[], ops)[id].status == Accepted
    ensures var c := Run(map[], ops)[id]; var h := History(map[], ops, c.pair);
      |h| >= 2 && h[|h| - 2] == Requested(c.pair, c.requestedBy)
      && exists other | other != c.requestedBy && IsEnd(c.pair, other) :: h[|h| - 1] == Answered(c.pair, other, Accepted)
  {
    var c := Run(map[], ops)[id];
    RunAgrees(ops, c.pair);
    OnlyRow(Run(map[], ops), id, c.pair);
    var h := History(map[], ops, c.pair);
    assert h[|h| - 1] == Answered(c.pair, h[|h| - 1].who, Accepted);
  }

  lemma RowExplained(ops: seq<Op>, id: Id)
    requires id in Run(map[], ops)
    ensures var c := Run(map[], ops)[id]; Explains(History(map[], ops, c.pair), c.pair, c.requestedBy, c.status)
  {
    var c := Run(map[], ops)[id];
    RunAgrees(ops, c.pair);
    OnlyRow(Run(map[], ops), id, c.pair);
  }

  /** A rejected row was rejected by the end that did not request it, right after the latest request. */
  predicate RejectedByTheOther(h: seq<Entry>, c: Connection) {
    var n := |h|;
    && n >= 2 && h[n - 2] == Requested(c.pair, c.requestedBy) && h[n - 1].Answered? && h[n - 1].answer == Rejected
    && h[n - 1].who != c.requestedBy && (h[n - 1].who == c.pair.low || h[n - 1].who == c.pair.high)
  }

  /** A cancelled one was cancelled by the end that did. */
  predicate CancelledByRequester(h: seq<Entry>, c: Connection) {
    var n := |h|;
    n >= 2 && h[n - 2] == Requested(c.pair, c.requestedBy) && h[n - 1] == Answered(c.pair, c.requestedBy, Cancelled)
  }

  /** A blocked one was blocked last, by one of the two. */
  predicate BarredByAnEnd(h: seq<Entry>, c: Connection) {
    var n := |h|;
    n >= 1 && h[n - 1].Barred? && (h[n - 1].who == c.pair.low || h[n - 1].who == c.pair.high)
  }

  lemma ExplainedMeans(h: seq<Entry>, c: Connection)
    requires Explains(h, c.pair, c.requestedBy, c.status)
    ensures c.status == Pending ==> h != [] && h[|h| - 1] == Requested(c.pair, c.requestedBy)
    ensures c.status == Rejected ==> RejectedByTheOther(h, c)
    ensures c.status == Cancelled ==> CancelledByRequester(h, c)
    ensures c.status == Blocked ==> BarredByAnEnd(h, c)
  {}

  /** What the history says of a row that is not accepted; a pending one was requested last, by its requester. */
  lemma OtherStatusesExplained(ops: seq<Op>, id: Id)
    requires id in Run(map[], ops)
    ensures var c := Run(map[], ops)[id]; var h := History(map[], ops, c.pair);
      && (c.status == Pending ==> h != [] && h[|h| - 1] == Requested(c.pair, c.requestedBy))
      && (c.status == Rejected ==> RejectedByTheOther(h, c))
      && (c.status == Cancelled ==> CancelledByRequester(h, c))
      && (c.status == Blocked ==> BarredByAnEnd(h, c))
  {
    RowExplained(ops, id);
    ExplainedMeans(History(map[], ops, Run(map[], ops)[id].pair), Run(map[], ops)[id]);
  }

  /* ---- What a block does ---- */

  /** Some row of the two participants has the status. */
  predicate RowBetween(t: Table, event: Event, a: User, b: User, s: Status) {
    exists id | id in t :: t[id].pair.event == event && {t[id].pair.low, t[id].pair.high} == {a, b} && t[id].status == s
  }

  /** Discovery lists the other visible, registered participants that no block stands between, and their profiles open;
      recommendations leave out dismissed and connected ones. */
  lemma DiscoverableMeans(t: Table, facts: Facts, event: Event, viewer: User, other: User, recommended: bool, dismissed: set<User>)
    ensures ProfileOpens(t, facts, event, viewer, other) <==>
      && viewer != other && (event, other) in facts.visible && (event, other) in facts.registered
      && !RowBetween(t, event, viewer, other, Blocked)
    ensures Discoverable(t, facts, event, viewer, other, recommended, dismissed) <==>
      && viewer != other && (event, other) in facts.visible && (event, other) in facts.registered
      && !RowBetween(t, event, viewer, other, Blocked)
      && (recommended ==> other !in dismissed && !RowBetween(t, event, viewer, other, Accepted))
  {
    if viewer != other {
      LinkedMeans(t, event, viewer, other, Blocked);
      LinkedMeans(t, event, viewer, other, Accepted);
    }
  }

  lemma LinkedMeans(t: Table, event: Event, user: User, other: User, s: Status)
    requires user != other
    ensures other in Linked(t, event, user, s) <==> RowBetween(t, event, user, other, s)
  {
    forall id | id in t
      ensures {t[id].pair.low, t[id].pair.high} == {user, other} <==>
              (t[id].pair.low == user && t[id].pair.high == other) || (t[id].pair.high == user && t[id].pair.low == other)
    {
      assert user in {user, other} && other in {user, other};
    }
  }

  /** A blocked pair is hidden from both sides, whatever else holds, and neither can send the other a request. */
  lemma BlockedIsHidden(t: Table, event: Event, a: User, b: User, facts: Facts, recommended: bool, dismissed: set<User>)
    requires Sound(t) && a != b && InStatus(t, PairOf(event, a, b), Blocked)
    ensures !Discoverable(t, facts, event, a, b, recommended, dismissed)
    ensures !Discoverable(t, facts, event, b, a, recommended, dismissed)
    ensures !ProfileOpens(t, facts, event, a, b) && !ProfileOpens(t, facts, event, b, a)
    ensures forall id, intent :: OutcomeOf(t, Send(id, event, a, b, intent, facts)).Failed?
    ensures forall id, intent :: OutcomeOf(t, Send(id, event, b, a, intent, facts)).Failed?
  {}

  /** Of two visible registered participants each discovers the other exactly when their pair is not blocked. */
  lemma HiddenIffBlocked(t: Table, event: Event, a: User, b: User, facts: Facts)
    requires Sound(t) && a != b && {(event, a), (event, b)} <= facts.visible * facts.registered
    ensures Discoverable(t, facts, event, a, b, false, {}) <==> !InStatus(t, PairOf(event, a, b), Blocked)
    ensures Discoverable(t, facts, event, a, b, false, {}) <==> Discoverable(t, facts, event, b, a, false, {})
  {}

  predicate Lifts(op: Op, p: Pair) {
    op.Unblock? && op.actor != op.other && PairOf(op.event, op.actor, op.other) == p
  }

  lemma StepKeepsBlocked(t: Table, op: Op, p: Pair)
    requires Sound(t) && InStatus(t, p, Blocked)
    requires !Lifts(op, p)
    ensures InStatus(Apply(t, op), p, Blocked)
  {}

  /** Once blocked, a pair stays blocked over every run without an unblock of that pair. */
  lemma {:induction false} BlockedUntilLifted(t: Table, ops: seq<Op>, p: Pair)
    requires Sound(t) && InStatus(t, p, Blocked)
    requires forall op | op in ops :: !Lifts(op, p)
    ensures Sound(Run(t, ops)) && InStatus(Run(t, ops), p, Blocked)
  {
    RunKeepsSound(t, ops);
    if ops != [] {
      var init, op := ops[..|ops| - 1], ops[|ops| - 1];
      BlockedUntilLifted(t, init, p);
      RunKeepsSound(t, init);
      StepKeepsBlocked(Run(t, init), op, p);
    }
  }

  /** An unblock, by either end, leaves the pair as if it had never met: a request is possible again. */
  lemma UnblockStartsAfresh(t: Table, op: Op, send: Op)
    requires Sound(t) && op.Unblock? && OutcomeOf(t, op) == Done
    requires send.Send? && PairOf(send.event, send.actor, send.other) == PairOf(op.event, op.actor, op.other)
    requires {(send.event, send.actor), (send.event, send.other)} <= send.facts.eligible && send.id !in t
    requires (send.event, send.other) in send.facts.visible * send.facts.registered
    ensures OutcomeOf(Apply(t, op), send) == Done
  {}

  /** Only the status changes when an existing row is blocked, so who requested it stays on record. */
  lemma BlockKeepsRequester(t: Table, op: Op)
    requires Sound(t) && op.Block? && OutcomeOf(t, op) == Done
    ensures var p := PairOf(op.event, op.actor, op.other);
      InStatus(Apply(t, op), p, Blocked)
      && Apply(t, op)[RowOf(Apply(t, op), p)].requestedBy == if HasRow(t, p) then t[RowOf(t, p)].requestedBy else op.actor
  {
    var p := PairOf(op.event, op.actor, op.other);
    OpKeepsSound(t, op);
    OnlyRow(Apply(t, op), if HasRow(t, p) then RowOf(t, p) else op.id, p);
  }

  /* ---- The service ---- */

  class NetworkingService {
    var table: Table

    constructor ()
      ensures table == map[] && Sound(table)
    {
      table := map[];
    }

    /** The row of a pair, if any. */
    method Find(p: Pair) returns (row: Option<Id>)
      requires Sound(table)
      ensures row.Some? <==> HasRow(table, p)
      ensures row.Some? ==> row.value in table && RowOf(table, p) == row.value
    {
      if id :| id in table && Joins(table, id, p) {
        OnlyRow(table, id, p);
        row := Some(id);
      } else {
        row := None;
      }
    }

    method SendRequest(id: Id, event: Event, actor: User, other: User, intent: Intent, facts: Facts) returns (outcome: Outcome)
      requires Sound(table)
      modifies this
      ensures var op := Send(id, event, actor, other, intent, facts);
        outcome == OutcomeOf(old(table), op) && table == Apply(old(table), op)
      ensures Sound(table)
    {
      ghost var op := Send(id, event, actor, other, intent, facts);
      OpKeepsSound(table, op);
      if (event, actor) !in facts.eligible || (event, other) !in facts.eligible {
        return Failed(NotEligible);
      }
      if actor == other {
        return Failed(Yourself);
      }
      var p := PairOf(event, actor, other);
      var existing := Find(p);
      if existing.Some? && table[existing.value].status in {Pending, Accepted, Blocked} {
        return Failed(Conflict);
      }
      if !ProfileOpens(table, facts, event, actor, other) {
        return Failed(NotFound);
      }
      if existing.Some? {
        var c := table[existing.value];
        table := table[existing.value := c.(status := Pending, requestedBy := actor, intent := intent, respondedAt := None)];
      } else if id in table {
        return Failed(Conflict);
      } else {
        table := table[id := Connection(p, actor, intent, Pending, None)];
      }
      outcome := Done;
    }

    method Transition(id: Id, actor: User, target: Status, now: Time, facts: Facts) returns (outcome: Outcome)
      requires Sound(table)
      modifies this
      ensures var op := Respond(id, actor, target, now, facts);
        outcome == OutcomeOf(old(table), op) && table == Apply(old(table), op)
      ensures Sound(table)
    {
      OpKeepsSound(table, Respond(id, actor, target, now, facts));
      if id !in table {
        return Failed(NotFound);
      }
      var c := table[id];
      if actor !in {c.pair.low, c.pair.high} {
        return Failed(NotYours);
      }
      if (c.pair.event, actor) !in facts.eligible {
        return Failed(NotEligible);
      }
      if target == Accepted && actor == c.requestedBy {
        return Failed(RecipientOnly);
      }
      if target == Rejected && actor == c.requestedBy {
        return Failed(RecipientOnly);
      }
      if target == Cancelled && actor != c.requestedBy {
        return Failed(RequesterOnly);
      }
      var allowed: map<Status, set<Status>> := map[Pending := {Accepted, Rejected, Cancelled, Blocked}, Accepted := {Blocked},
        Rejected := {}, Cancelled := {}, Blocked := {}];
      if target !in allowed[c.status] {
        return Failed(NotAllowed);
      }
      table := table[id := c.(status := target, respondedAt := Some(now))];
      outcome := Done;
    }

    method BlockParticipant(id: Id, event: Event, actor: User, other: User, facts: Facts) returns (outcome: Outcome)
      requires Sound(table)
      modifies this
      ensures var op := Block(id, event, actor, other, facts);
        outcome == OutcomeOf(old(table), op) && table == Apply(old(table), op)
      ensures Sound(table)
    {
      OpKeepsSound(table, Block(id, event, actor, other, facts));
      if (event, other) !in facts.eligible {
        return Failed(NotEligible);
      }
      if actor == other {
        return Failed(Yourself);
      }
      var p := PairOf(event, actor, other);
      var existing := Find(p);
      if existing.Some? {
        table := table[existing.value := table[existing.value].(status := Blocked)];
      } else if id in table {
        return Failed(Conflict);
      } else {
        table := table[id := Connection(p, actor, Connect, Blocked, None)];
      }
      outcome := Done;
    }

    method UnblockParticipant(event: Event, actor: User, other: User, facts: Facts) returns (outcome: Outcome)
      requires Sound(table)
      modifies this
      ensures var op := Unblock(event, actor, other, facts);
        outcome == OutcomeOf(old(table), op) && table == Apply(old(table), op)
      ensures Sound(table)
    {
      OpKeepsSound(table, Unblock(event, actor, other, facts));
      if (event, actor) !in facts.eligible {
        return Failed(NotEligible);
      }
      if actor == other {
        return Failed(Yourself);
      }
      var existing := Find(PairOf(event, actor, other));
      if existing.None? || table[existing.value].status != Blocked {
        return Failed(NotFound);
      }
      table := table - {existing.value};
      outcome := Done;
    }
  }
}
