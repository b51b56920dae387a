/** Requests and responses that read a row without a lock and write it later, between other operations on the pair. */
module ConnectionRaces {
  import opened Common
  import opened Connections

  type Tx = nat

  /** What a transaction is about to write: a row under a new id, or the columns in which `wanted` differs from `read`. */
  datatype Plan = Plan(id: Id, read: Option<Connection>, wanted: Connection)

  datatype Shared = Shared(table: Table, open: map<Tx, Plan>)

  datatype Step =
    | Prepare(tx: Tx, op: Op)   // a request or response reads the row and passes its checks
    | Write(tx: Tx)             // its flush and commit
    | Whole(op: Op)             // a block or unblock, which holds the row's lock from its read on

  predicate ReadsFirst(op: Op) {
    op.Send? || op.Respond?
  }

  ghost predicate CanPrepare(s: Shared, tx: Tx, op: Op) {
    ReadsFirst(op) && tx !in s.open && OutcomeOf(s.table, op) == Done
  }

  ghost function RowIdOf(t: Table, op: Op): Id
    requires ReadsFirst(op) && OutcomeOf(t, op) == Done
  {
    if op.Respond? then op.id
    else
      var p := PairOf(op.event, op.actor, op.other);
      if HasRow(t, p) then RowOf(t, p) else op.id
  }

  ghost function PlanOf(t: Table, op: Op): Plan
    requires ReadsFirst(op) && OutcomeOf(t, op) == Done
  {
    var id := RowIdOf(t, op);
    Plan(id, if id in t then Some(t[id]) else None, Apply(t, op)[id])
  }

  function Merged(read: Connection, wanted: Connection, current: Connection): Connection {
    Connection(current.pair,
               if wanted.requestedBy == read.requestedBy then current.requestedBy else wanted.requestedBy,
               if wanted.intent == read.intent then current.intent else wanted.intent,
               if wanted.status == read.status then current.status else wanted.status,
               if wanted.respondedAt == read.respondedAt then current.respondedAt else wanted.respondedAt)
  }

  /** An update finds its row or fails; an insert fails when the pair has a row by now. */
  ghost function Written(t: Table, plan: Plan): Table {
    var p := plan.wanted.pair;
    if plan.read.Some? then
      if Joins(t, plan.id, p) then t[plan.id := Merged(plan.read.value, plan.wanted, t[plan.id])] else t
    else if plan.id in t || HasRow(t, p) then t
    else t[plan.id := plan.wanted]
  }

  /** A step that is not possible changes nothing. */
  ghost function Next(s: Shared, step: Step): Shared {
    match step
    case Prepare(tx, op) => if CanPrepare(s, tx, op) then s.(open := s.open[tx := PlanOf(s.table, op)]) else s
    case Write(tx) => if tx in s.open then Shared(Written(s.table, s.open[tx]), s.open - {tx}) else s
    case Whole(op) => if ReadsFirst(op) then s else s.(table := Apply(s.table, op))
  }

  ghost function After(s: Shared, steps: seq<Step>): Shared {
    if steps == [] then s else Next(After(s, steps[..|steps| - 1]), steps[|steps| - 1])
  }

  /** A plan is about one pair and changes the status of a row it has read. */
  predicate Proper(plan: Plan) {
    && WellFormed(plan.wanted)
    && (plan.read.Some? ==> plan.read.value.pair == plan.wanted.pair && plan.read.value.status != plan.wanted.status)
  }

  ghost predicate Orderly(s: Shared) {
    Sound(s.table) && forall tx | tx in s.open :: Proper(s.open[tx])
  }

  lemma PlanIsProper(t: Table, op: Op)
    requires Sound(t) && ReadsFirst(op) && OutcomeOf(t, op) == Done
    ensures Proper(PlanOf(t, op))
  {
    OpKeepsSound(t, op);
  }

  lemma WriteKeepsSound(t: Table, plan: Plan)
    requires Sound(t) && Proper(plan)
    ensures Sound(Written(t, plan))
  {}

  lemma StepKeepsOrder(s: Shared, step: Step)
    requires Orderly(s)
    ensures Orderly(Next(s, step))
  {
    match step
    case Prepare(tx, op) => if CanPrepare(s, tx, op) { PlanIsProper(s.table, op); }
    case Write(tx) => if tx in s.open { WriteKeepsSound(s.table, s.open[tx]); }
    case Whole(op) => OpKeepsSound(s.table, op);
  }

  /** However the reads and writes interleave, there is one well-formed row per pair. */
  lemma {:induction false} RunKeepsOrder(s: Shared, steps: seq<Step>)
    requires Orderly(s)
    ensures Orderly(After(s, steps))
  {
    if steps != [] {
      RunKeepsOrder(s, steps[..|steps| - 1]);
      StepKeepsOrder(After(s, steps[..|steps| - 1]), steps[|steps| - 1]);
    }
  }

  /* ---- When a block is lost ---- */

  /** The transaction read the pair's row before and is about to give it another status than blocked. */
  ghost predicate Overwrites(s: Shared, tx: Tx, p: Pair) {
    tx in s.open && s.open[tx].read.Some? && Joins(s.table, s.open[tx].id, p) && s.open[tx].wanted.pair == p
    && s.open[tx].wanted.status != Blocked
  }

  /** The pair is blocked, and nobody is about to overwrite that. */
  ghost predicate Firm(s: Shared, p: Pair) {
    Orderly(s) && InStatus(s.table, p, Blocked) && forall tx :: !Overwrites(s, tx, p)
  }

  predicate LiftsPair(step: Step, p: Pair) {
    step.Whole? && Lifts(step.op, p)
  }

  /** On a blocked row no request and no response passes its checks. */
  lemma PrepareStaysFirm(s: Shared, tx: Tx, op: Op, p: Pair)
    requires Firm(s, p) && CanPrepare(s, tx, op)
    ensures Firm(Next(s, Prepare(tx, op)), p)
  {
    StepKeepsOrder(s, Prepare(tx, op));
    var next := Next(s, Prepare(tx, op));
    forall u ensures !Overwrites(next, u, p) {
      assert !Overwrites(s, u, p);
    }
  }

  lemma WriteStaysFirm(s: Shared, tx: Tx, p: Pair)
    requires Firm(s, p) && tx in s.open
    ensures Firm(Next(s, Write(tx)), p)
  {
    StepKeepsOrder(s, Write(tx));
    var next, row := Next(s, Write(tx)), RowOf(s.table, p);
    assert !Overwrites(s, tx, p);
    OnlyRow(next.table, row, p);
    forall u ensures !Overwrites(next, u, p) {
      assert !Overwrites(s, u, p);
      assert Joins(next.table, row, p) && Joins(s.table, row, p);
    }
  }

  lemma WholeStaysFirm(s: Shared, op: Op, p: Pair)
    requires Firm(s, p) && !Lifts(op, p) && !ReadsFirst(op)
    ensures Firm(Next(s, Whole(op)), p)
  {
    StepKeepsOrder(s, Whole(op));
    var next, row := Next(s, Whole(op)), RowOf(s.table, p);
    StepKeepsBlocked(s.table, op, p);
    assert Joins(next.table, row, p);
    OnlyRow(next.table, row, p);
    forall u ensures !Overwrites(next, u, p) {
      assert !Overwrites(s, u, p);
    }
  }

  lemma {:induction false} FirmStaysFirm(s: Shared, steps: seq<Step>, p: Pair)
    requires Firm(s, p) && forall step | step in steps :: !LiftsPair(step, p)
    ensures Firm(After(s, steps), p)
  {
    if steps != [] {
      var init, last := steps[..|steps| - 1], steps[|steps| - 1];
      FirmStaysFirm(s, init, p);
      assert !LiftsPair(last, p);
      match last
      case Prepare(tx, op) => if CanPrepare(After(s, init), tx, op) { PrepareStaysFirm(After(s, init), tx, op, p); }
      case Write(tx) => if tx in After(s, init).open { WriteStaysFirm(After(s, init), tx, p); }
      case Whole(op) => if !ReadsFirst(op) { WholeStaysFirm(After(s, init), op, p); }
    }
  }

  ghost predicate LosesBlock(s: Shared, steps: seq<Step>, p: Pair) {
    (forall step | step in steps :: !LiftsPair(step, p)) && !InStatus(After(s, steps).table, p, Blocked)
  }

  /** A block can be lost without an unblock exactly when, at the time it is there, some transaction that had read the
      pair's row before is still about to write another status. */
  lemma BlockLostIffOverwritten(s: Shared, p: Pair)
    requires Orderly(s) && InStatus(s.table, p, Blocked)
    ensures (exists steps :: LosesBlock(s, steps, p)) <==> exists tx :: Overwrites(s, tx, p)
  {
    if exists tx :: Overwrites(s, tx, p) {
      var tx :| Overwrites(s, tx, p);
      var next := After(s, [Write(tx)]);
      assert [Write(tx)][..0] == [] && After(s, []) == s;
      assert next == Next(s, Write(tx));
      StepKeepsOrder(s, Write(tx));
      OnlyRow(next.table, s.open[tx].id, p);
      assert LosesBlock(s, [Write(tx)], p);
    } else {
      forall steps ensures !LosesBlock(s, steps, p) {
        if forall step | step in steps :: !LiftsPair(step, p) {
          FirmStaysFirm(s, steps, p);
        }
      }
    }
  }

  /** Every request or response that has read the pair's row takes back a block committed before it writes. */
  lemma LateWriteTakesBlockBack(t: Table, op: Op, block: Op)
    requires Sound(t) && ReadsFirst(op) && OutcomeOf(t, op) == Done && PlanOf(t, op).read.Some?
    requires PlanOf(t, op).wanted.status != Blocked
    requires block.Block? && OutcomeOf(t, block) == Done
    requires PairOf(block.event, block.actor, block.other) == PlanOf(t, op).wanted.pair
    ensures var p := PlanOf(t, op).wanted.pair;
      && InStatus(After(Shared(t, map[]), [Prepare(1, op), Whole(block)]).table, p, Blocked)
      && InStatus(After(Shared(t, map[]), [Prepare(1, op), Whole(block), Write(1)]).table, p, PlanOf(t, op).wanted.status)
  {
    var s, plan := Shared(t, map[]), PlanOf(t, op);
    var a, b, c := Prepare(1, op), Whole(block), Write(1);
    assert [a, b, c][..2] == [a, b] && [a, b][..1] == [a] && [a][..0] == [];
    var s1 := Next(s, a);
    assert s1 == Shared(t, map[1 := plan]) && After(s, [a]) == s1;
    PlanIsProper(t, op);
    OnlyRow(t, plan.id, plan.wanted.pair);
    OpKeepsSound(t, block);
    var s2 := Next(s1, b);
    assert s2.table == AfterBlock(t, block) && After(s, [a, b]) == s2;
    OnlyRow(s2.table, plan.id, plan.wanted.pair);
    var s3 := Next(s2, c);
    WriteKeepsSound(s2.table, plan);
    assert s3.table == Written(s2.table, plan) && After(s, [a, b, c]) == s3;
    OnlyRow(s3.table, plan.id, plan.wanted.pair);
  }
}
