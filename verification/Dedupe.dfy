/** Creating a notification once per dedupe key while other transactions do the same. */
module Dedupe {
  import opened Common
  import opened Digraph

  type Id = nat
  type Tx = nat

  datatype Row = Row(key: Option<string>, owner: Tx)

  /** Where a transaction stands inside `create`. */
  datatype Phase =
    | Idle
    | Checking(key: Option<string>)
    | Inserting(key: Option<string>)
    | Recovering(key: Option<string>, unresolved: bool)
  datatype Status = Running | Committed | Aborted

  /** A finished `create`: the row it returned, or none if it raised; `unresolved` if its insert failed because the event,
      the recipient or the template does not exist. */
  datatype Result = Result(key: Option<string>, row: Option<Id>, unresolved: bool)
  datatype Session = Session(status: Status, phase: Phase, results: seq<Result>)
  datatype Database = Database(rows: map<Id, Row>, sessions: map<Tx, Session>)

  datatype Move = Open | Begin(key: Option<string>) | Check | Insert(id: Id, resolves: bool) | Recover | Commit | Abort

  const EMPTY := Database(map[], map[])

  /** The empty text is a value of the column, but no key for the look-ups. */
  predicate Given(key: Option<string>) {
    key.Some? && key.value != ""
  }

  predicate IsRunning(d: Database, t: Tx) {
    t in d.sessions && d.sessions[t].status == Status.Running
  }

  predicate IsCommitted(d: Database, id: Id) {
    id in d.rows && d.rows[id].owner in d.sessions && d.sessions[d.rows[id].owner].status == Committed
  }

  /** What a query of a transaction sees: committed rows and its own. */
  predicate Visible(d: Database, t: Tx, id: Id) {
    id in d.rows && (d.rows[id].owner == t || IsCommitted(d, id))
  }

  predicate Holds(d: Database, id: Id, key: Option<string>) {
    id in d.rows && d.rows[id].key == key
  }

  /** The unique constraint makes an insert wait for another transaction's uncommitted row with the same key. */
  predicate MustWait(d: Database, t: Tx, key: Option<string>) {
    key.Some? && exists id | id in d.rows :: Holds(d, id, key) && !Visible(d, t, id)
  }

  predicate Violates(d: Database, t: Tx, key: Option<string>) {
    key.Some? && exists id | id in d.rows :: Holds(d, id, key) && Visible(d, t, id)
  }

  predicate Finds(d: Database, t: Tx, key: Option<string>, id: Id) {
    Holds(d, id, key) && Visible(d, t, id)
  }

  predicate CanMove(d: Database, t: Tx, m: Move) {
    match m
    case Open => t !in d.sessions
    case Abort => IsRunning(d, t)
    case Begin(_) => IsRunning(d, t) && d.sessions[t].phase == Idle
    case Check => IsRunning(d, t) && d.sessions[t].phase.Checking?
    case Insert(id, _) =>
      IsRunning(d, t) && d.sessions[t].phase.Inserting? && id !in d.rows && !MustWait(d, t, d.sessions[t].phase.key)
    case Recover => IsRunning(d, t) && d.sessions[t].phase.Recovering?
    case Commit => IsRunning(d, t) && d.sessions[t].phase == Idle
  }

  function In(d: Database, t: Tx, phase: Phase): Database
    requires t in d.sessions
  {
    d.(sessions := d.sessions[t := d.sessions[t].(phase := phase)])
  }

  function Finish(d: Database, t: Tx, r: Result): Database
    requires t in d.sessions
  {
    d.(sessions := d.sessions[t := d.sessions[t].(phase := Idle, results := d.sessions[t].results + [r])])
  }

  /** The row that a look-up of the key returns. */
  ghost function RowOf(d: Database, t: Tx, key: Option<string>): (id: Id)
    requires Violates(d, t, key)
    ensures Finds(d, t, key, id)
  {
    var id :| id in d.rows && Holds(d, id, key) && Visible(d, t, id); id
  }

  ghost function Apply(d: Database, t: Tx, m: Move): Database
    requires CanMove(d, t, m)
  {
    match m
    case Open => d.(sessions := d.sessions[t := Session(Status.Running, Idle, [])])
    case Begin(key) => In(d, t, Checking(key))
    case Check =>
      var key := d.sessions[t].phase.key;
      if Given(key) && Violates(d, t, key) then Finish(d, t, Result(key, Some(RowOf(d, t, key)), false))
      else In(d, t, Inserting(key))
    case Insert(id, resolves) =>
      var key := d.sessions[t].phase.key;
      if Violates(d, t, key) then In(d, t, Recovering(key, false))
      else if !resolves then In(d, t, Recovering(key, true))
      else Finish(d.(rows := d.rows[id := Row(key, t)]), t, Result(key, Some(id), false))
    case Recover =>
      var key, unresolved := d.sessions[t].phase.key, d.sessions[t].phase.unresolved;
      Finish(d, t, Result(key, if Given(key) && Violates(d, t, key) then Some(RowOf(d, t, key)) else None, unresolved))
    case Commit => d.(sessions := d.sessions[t := d.sessions[t].(status := Committed)])
    case Abort =>
      Database(map id | id in d.rows && d.rows[id].owner != t :: d.rows[id], d.sessions[t := d.sessions[t].(status := Aborted)])
  }

  datatype Step = Step(tx: Tx, move: Move)

  /** Any interleaving of the moves of any number of transactions. */
  ghost predicate CanRun(d: Database, run: seq<Step>) {
    run == [] ||
    (var init, last := run[..|run| - 1], run[|run| - 1]; CanRun(d, init) && CanMove(After(d, init), last.tx, last.move))
  }

  ghost function After(d: Database, run: seq<Step>): Database {
    if run == [] then d
    else
      var before, last := After(d, run[..|run| - 1]), run[|run| - 1];
      if CanMove(before, last.tx, last.move) then Apply(before, last.tx, last.move) else before
  }

  /* ---- Invariant ---- */

  predicate KeysUnique(d: Database) {
    forall i, j | i in d.rows && j in d.rows && d.rows[i].key == d.rows[j].key && d.rows[i].key.Some? :: i == j
  }

  predicate OwnersKnown(d: Database) {
    forall i | i in d.rows :: d.rows[i].owner in d.sessions && d.sessions[d.rows[i].owner].status != Aborted
  }

  /** A returned row is there, has the key asked for and is the transaction's own or committed; nothing is returned only for
      the empty text or after an unresolved foreign key. */
  predicate Honest(d: Database, t: Tx, r: Result) {
    if r.row.Some? then Finds(d, t, r.key, r.row.value) else r.key == Some("") || r.unresolved
  }

  /** An insert that failed without an unresolved foreign key failed because of a row that is there. */
  predicate Explained(d: Database, t: Tx, phase: Phase) {
    phase.Recovering? && !phase.unresolved ==> Violates(d, t, phase.key)
  }

  predicate Sound(d: Database) {
    && KeysUnique(d) && OwnersKnown(d)
    && (forall t, r | t in d.sessions && d.sessions[t].status != Aborted && r in d.sessions[t].results :: Honest(d, t, r))
    && (forall t | t in d.sessions && d.sessions[t].status != Aborted :: Explained(d, t, d.sessions[t].phase))
  }

  /** A step leaves every row in place that it may not take away: committed ones, and those of transactions not aborting. */
  lemma RowsStay(d: Database, t: Tx, m: Move, id: Id)
    requires Sound(d) && CanMove(d, t, m) && id in d.rows && (m == Abort ==> d.rows[id].owner != t)
    ensures var d' := Apply(d, t, m); id in d'.rows && d'.rows[id] == d.rows[id]
    ensures IsCommitted(d, id) ==> IsCommitted(Apply(d, t, m), id)
  {}

  lemma StaysVisible(d: Database, t: Tx, m: Move, u: Tx, key: Option<string>, id: Id)
    requires Sound(d) && CanMove(d, t, m) && Finds(d, u, key, id) && (m == Abort ==> u != t)
    ensures Finds(Apply(d, t, m), u, key, id)
  {}

  lemma StepKeepsKeys(d: Database, t: Tx, m: Move)
    requires Sound(d) && CanMove(d, t, m)
    ensures KeysUnique(Apply(d, t, m)) && OwnersKnown(Apply(d, t, m))
  {
    if m.Insert? {
      var key := d.sessions[t].phase.key;
      assert key.Some? && !Violates(d, t, key) ==> forall i | i in d.rows :: !Holds(d, i, key);
    }
  }

  lemma NewResult(d: Database, t: Tx, m: Move, r: Result)
    requires Sound(d) && CanMove(d, t, m) && t in d.sessions
    requires Apply(d, t, m).sessions[t].results == d.sessions[t].results + [r]
    ensures Honest(Apply(d, t, m), t, r)
  {
    assert (d.sessions[t].results + [r])[|d.sessions[t].results|] == r;
  }

  lemma StepKeepsSound(d: Database, t: Tx, m: Move)
    requires Sound(d) && CanMove(d, t, m)
    ensures Sound(Apply(d, t, m))
  {
    var d' := Apply(d, t, m);
    StepKeepsKeys(d, t, m);
    forall u, r | u in d'.sessions && d'.sessions[u].status != Aborted && r in d'.sessions[u].results
      ensures Honest(d', u, r)
    {
      if u in d.sessions && r in d.sessions[u].results {
        if r.row.Some? {
          StaysVisible(d, t, m, u, r.key, r.row.value);
        }
      } else {
        NewResult(d, t, m, r);
      }
    }
    forall u | u in d'.sessions && d'.sessions[u].status != Aborted ensures Explained(d', u, d'.sessions[u].phase) {
      var phase := d'.sessions[u].phase;
      if phase.Recovering? && Violates(d, u, phase.key) {
        StaysVisible(d, t, m, u, phase.key, RowOf(d, u, phase.key));
      }
    }
  }

  lemma {:induction false} RunKeepsSound(run: seq<Step>)
    requires CanRun(EMPTY, run)
    ensures Sound(After(EMPTY, run))
  {
    if run != [] {
      RunKeepsSound(run[..|run| - 1]);
      StepKeepsSound(After(EMPTY, run[..|run| - 1]), run[|run| - 1].tx, run[|run| - 1].move);
    }
  }

  /* ---- What every interleaving guarantees ---- */

  /** At most one row, committed or not, has a key, so at most one committed row. */
  lemma OneRowPerKey(run: seq<Step>, i: Id, j: Id)
    requires CanRun(EMPTY, run)
    requires i in After(EMPTY, run).rows && j in After(EMPTY, run).rows
    requires After(EMPTY, run).rows[i].key == After(EMPTY, run).rows[j].key && After(EMPTY, run).rows[i].key.Some?
    ensures i == j
  {}

  /** All creators of one key whose transactions committed returned the same committed row, unless their own row had an
      unresolved foreign key. */
  lemma CreatorsAgree(run: seq<Step>, t: Tx, u: Tx, r: Result, q: Result)
    requires CanRun(EMPTY, run)
    requires var d := After(EMPTY, run);
      t in d.sessions && u in d.sessions && d.sessions[t].status == Committed && d.sessions[u].status == Committed
      && r in d.sessions[t].results && q in d.sessions[u].results
    requires r.key == q.key && Given(r.key)
    ensures r.row.Some? && q.row.Some? ==> r.row == q.row
    ensures r.row.Some? ==> IsCommitted(After(EMPTY, run), r.row.value) && Holds(After(EMPTY, run), r.row.value, r.key)
    ensures !r.unresolved ==> r.row.Some?
  {
    RunKeepsSound(run);
    var d := After(EMPTY, run);
    assert Honest(d, t, r) && Honest(d, u, q);
  }

  /* ---- Exactly when creation raises ---- */

  /** After a failed insert: a lost race raises exactly for the empty text; an unresolved foreign key raises exactly when
      the look-up has no key or finds no row. */
  lemma RecoverRaises(d: Database, t: Tx)
    requires Sound(d) && CanMove(d, t, Recover)
    ensures var phase, results := d.sessions[t].phase, Apply(d, t, Recover).sessions[t].results;
      |results| > 0 &&
      (results[|results| - 1].row.None? <==>
        if phase.unresolved then !(Given(phase.key) && Violates(d, t, phase.key)) else phase.key == Some(""))
  {
    assert Explained(d, t, d.sessions[t].phase);
  }

  /** Over every interleaving, without unresolved foreign keys only the empty text raises; a creator that does not raise
      returned a row it sees, with its key. */
  lemma WhatRaises(run: seq<Step>, t: Tx, r: Result)
    requires CanRun(EMPTY, run)
    requires t in After(EMPTY, run).sessions && After(EMPTY, run).sessions[t].status != Aborted
    requires r in After(EMPTY, run).sessions[t].results
    ensures r.row.None? ==> r.key == Some("") || r.unresolved
    ensures r.row.Some? ==> Finds(After(EMPTY, run), t, r.key, r.row.value)
  {
    RunKeepsSound(run);
    assert Honest(After(EMPTY, run), t, r);
  }

  lemma OneStepMore(run: seq<Step>, t: Tx, m: Move)
    requires CanRun(EMPTY, run) && CanMove(After(EMPTY, run), t, m)
    ensures CanRun(EMPTY, run + [Step(t, m)]) && After(EMPTY, run + [Step(t, m)]) == Apply(After(EMPTY, run), t, m)
  {
    assert (run + [Step(t, m)])[..|run|] == run;
  }

  lemma BeginThenCheck(d: Database, t: Tx, key: Option<string>)
    requires CanMove(d, t, Begin(key)) && (Given(key) ==> !Violates(d, t, key))
    ensures var asked := Apply(d, t, Begin(key)); CanMove(asked, t, Check) && Apply(asked, t, Check) == In(d, t, Inserting(key))
  {
    assert Given(key) ==> !Violates(Apply(d, t, Begin(key)), t, key);
  }

  /** A transaction asks for a key and does not find it. */
  lemma AsksNext(run: seq<Step>, t: Tx, key: Option<string>) returns (more: seq<Step>)
    requires CanRun(EMPTY, run) && CanMove(After(EMPTY, run), t, Begin(key))
    requires Given(key) ==> !Violates(After(EMPTY, run), t, key)
    ensures CanRun(EMPTY, more) && After(EMPTY, more) == In(After(EMPTY, run), t, Inserting(key))
  {
    BeginThenCheck(After(EMPTY, run), t, key);
    OneStepMore(run, t, Begin(key));
    OneStepMore(run + [Step(t, Begin(key))], t, Check);
    more := run + [Step(t, Begin(key))] + [Step(t, Check)];
  }

  lemma OpensAndAsks(d: Database, t: Tx, key: Option<string>)
    requires t !in d.sessions && (Given(key) ==> !Violates(d, t, key))
    ensures CanMove(d, t, Open)
    ensures var started := Apply(d, t, Open);
      && CanMove(started, t, Begin(key)) && (Given(key) ==> !Violates(started, t, key))
      && In(started, t, Inserting(key)) == d.(sessions := d.sessions[t := Session(Status.Running, Inserting(key), [])])
  {}

  /** A transaction opens and asks for a key that it does not find. */
  lemma Asks(run: seq<Step>, t: Tx, key: Option<string>) returns (more: seq<Step>)
    requires CanRun(EMPTY, run) && t !in After(EMPTY, run).sessions
    requires Given(key) ==> !Violates(After(EMPTY, run), t, key)
    ensures CanRun(EMPTY, more)
    ensures var d := After(EMPTY, run);
      After(EMPTY, more) == d.(sessions := d.sessions[t := Session(Status.Running, Inserting(key), [])])
  {
    OpensAndAsks(After(EMPTY, run), t, key);
    OneStepMore(run, t, Open);
    more := AsksNext(run + [Step(t, Open)], t, key);
  }

  /** Two creators of the empty text: the first one commits its row, the second one raises. */
  lemma EmptyTextRaises() returns (run: seq<Step>)
    ensures CanRun(EMPTY, run) && 2 in After(EMPTY, run).sessions
    ensures After(EMPTY, run).sessions[2].results == [Result(Some(""), None, false)]
  {
    run := Asks([], 1, Some(""));
    OneStepMore(run, 1, Insert(7, true));
    run := run + [Step(1, Insert(7, true))];
    OneStepMore(run, 1, Commit);
    run := run + [Step(1, Commit)];
    run := Asks(run, 2, Some(""));
    assert Finds(After(EMPTY, run), 2, Some(""), 7);
    OneStepMore(run, 2, Insert(8, true));
    run := run + [Step(2, Insert(8, true))];
    OneStepMore(run, 2, Recover);
    run := run + [Step(2, Recover)];
  }

  /** With any key, a row whose event, recipient or template does not exist makes its creator raise. */
  lemma UnresolvedRaises(key: Option<string>) returns (run: seq<Step>)
    ensures CanRun(EMPTY, run) && 1 in After(EMPTY, run).sessions
    ensures After(EMPTY, run).sessions[1].results == [Result(key, None, true)]
  {
    run := Asks([], 1, key);
    OneStepMore(run, 1, Insert(7, false));
    run := run + [Step(1, Insert(7, false))];
    OneStepMore(run, 1, Recover);
    run := run + [Step(1, Recover)];
  }

  /** A failed insert takes nothing away: no row, no earlier result of any transaction, and the session goes on. */
  lemma LostInsertKeepsAll(d: Database, t: Tx, id: Id, resolves: bool)
    requires Sound(d) && CanMove(d, t, Insert(id, resolves)) && (Violates(d, t, d.sessions[t].phase.key) || !resolves)
    ensures var d' := Apply(d, t, Insert(id, resolves));
      && d'.rows == d.rows && d'.sessions.Keys == d.sessions.Keys
      && (forall u | u in d.sessions :: d'.sessions[u].results == d.sessions[u].results && d'.sessions[u].status == d.sessions[u].status)
      && CanMove(d', t, Recover)
  {}

  /** What a run may do to the rows and results of a transaction that is not aborted. */
  lemma {:induction false} EarlierRowsSurvive(d: Database, run: seq<Step>, t: Tx)
    requires Sound(d) && CanRun(d, run) && t in d.sessions
    ensures Sound(After(d, run)) && t in After(d, run).sessions
    ensures d.sessions[t].status == Aborted ==> After(d, run).sessions[t].status == Aborted
    ensures var d' := After(d, run); d'.sessions[t].status != Aborted ==>
      && d.sessions[t].results <= d'.sessions[t].results
      && (forall id | id in d.rows && d.rows[id].owner == t :: id in d'.rows && d'.rows[id] == d.rows[id])
  {
    if run != [] {
      var init, last := run[..|run| - 1], run[|run| - 1];
      EarlierRowsSurvive(d, init, t);
      var before := After(d, init);
      StepKeepsSound(before, last.tx, last.move);
      if After(d, run).sessions[t].status != Aborted {
        forall id | id in before.rows && before.rows[id].owner == t
          ensures id in After(d, run).rows && After(d, run).rows[id] == before.rows[id]
        {
          RowsStay(before, last.tx, last.move, id);
        }
      }
    }
  }

  /* ---- Waiting ---- */

  /** A transaction about to insert waits for another running one that holds an uncommitted row with its key. */
  ghost predicate WaitsFor(d: Database, t: Tx, u: Tx) {
    && IsRunning(d, t) && IsRunning(d, u) && t != u && d.sessions[t].phase.Inserting? && d.sessions[t].phase.key.Some?
    && exists id | id in d.rows :: Holds(d, id, d.sessions[t].phase.key) && d.rows[id].owner == u
  }

  ghost function WaitsGraph(d: Database): (Tx, Tx) -> bool {
    (t: Tx, u: Tx) => WaitsFor(d, t, u)
  }

  /** An insert has to wait exactly when its transaction waits for some other one. */
  lemma WaitingIsForSomeone(d: Database, t: Tx)
    requires Sound(d) && IsRunning(d, t) && d.sessions[t].phase.Inserting?
    ensures MustWait(d, t, d.sessions[t].phase.key) <==> exists u :: WaitsFor(d, t, u)
  {
    var key := d.sessions[t].phase.key;
    if MustWait(d, t, key) {
      var id :| id in d.rows && Holds(d, id, key) && !Visible(d, t, id);
      assert WaitsFor(d, t, d.rows[id].owner);
    }
  }

  /** All rows a transaction has inserted have keys before the given one. */
  predicate Precede(d: Database, t: Tx, key: Option<string>, rank: string -> nat) {
    key.Some? ==> forall id | id in d.rows && d.rows[id].owner == t && d.rows[id].key.Some? :: rank(d.rows[id].key.value) < rank(key.value)
  }

  predicate InOrder(d: Database, rank: string -> nat) {
    forall t | t in d.sessions && (d.sessions[t].phase.Checking? || d.sessions[t].phase.Inserting?) ::
      Precede(d, t, d.sessions[t].phase.key, rank)
  }

  /** Every transaction asks for its keys in one common order. */
  ghost predicate OrderlyRun(run: seq<Step>, rank: string -> nat) {
    forall k | 0 <= k < |run| && run[k].move.Begin? :: Precede(After(EMPTY, run[..k]), run[k].tx, run[k].move.key, rank)
  }

  lemma StepKeepsOrder(d: Database, t: Tx, m: Move, rank: string -> nat)
    requires Sound(d) && CanMove(d, t, m) && InOrder(d, rank)
    requires m.Begin? ==> Precede(d, t, m.key, rank)
    ensures InOrder(Apply(d, t, m), rank)
  {}

  lemma {:induction false} RunKeepsOrder(run: seq<Step>, rank: string -> nat)
    requires CanRun(EMPTY, run) && OrderlyRun(run, rank)
    ensures InOrder(After(EMPTY, run), rank)
  {
    if run != [] {
      var init, last := run[..|run| - 1], run[|run| - 1];
      forall k | 0 <= k < |init| && init[k].move.Begin? ensures Precede(After(EMPTY, init[..k]), init[k].tx, init[k].move.key, rank) {
        assert run[k] == init[k] && run[..k] == init[..k];
      }
      RunKeepsOrder(init, rank);
      RunKeepsSound(init);
      assert run[..|run| - 1] == init;
      StepKeepsOrder(After(EMPTY, init), last.tx, last.move, rank);
    }
  }

  /** Creators that use one common key order never wait for each other in a circle. */
  lemma OrderedNeverCircle(run: seq<Step>, rank: string -> nat)
    requires CanRun(EMPTY, run) && OrderlyRun(run, rank)
    ensures Acyclic(WaitsGraph(After(EMPTY, run)))
  {
    var d := After(EMPTY, run);
    RunKeepsOrder(run, rank);
    var awaited := (t: Tx) =>
      if t in d.sessions && d.sessions[t].phase.Inserting? && d.sessions[t].phase.key.Some? then rank(d.sessions[t].phase.key.value) else 0;
    forall t, u, v | WaitsGraph(d)(t, u) && WaitsGraph(d)(u, v) ensures awaited(t) < awaited(u) {
      assert WaitsFor(d, t, u) && WaitsFor(d, u, v);
      var id :| id in d.rows && Holds(d, id, d.sessions[t].phase.key) && d.rows[id].owner == u;
      assert Precede(d, u, d.sessions[u].phase.key, rank);
    }
    GrowingIsAcyclic(WaitsGraph(d), awaited);
  }

  /** Two creators that insert two keys in opposite order can wait for each other. */
  lemma OppositeOrdersCircle() returns (run: seq<Step>)
    ensures CanRun(EMPTY, run) && IsCycle(WaitsGraph(After(EMPTY, run)), [1, 2, 1])
  {
    run := Inserts([], 1, "a", 7);
    run := Inserts(run, 2, "b", 8);
    run := AsksNext(run, 1, Some("b"));
    run := AsksNext(run, 2, Some("a"));
    var d := After(EMPTY, run);
    assert d.sessions[1].phase == Inserting(Some("b")) && d.sessions[2].phase == Inserting(Some("a"));
    assert Holds(d, 7, Some("a")) && Holds(d, 8, Some("b"));
    assert WaitsFor(d, 1, 2) && WaitsFor(d, 2, 1);
    assert WaitsGraph(d)(1, 2) && WaitsGraph(d)(2, 1);
  }

  lemma Inserts(run: seq<Step>, t: Tx, key: string, id: Id) returns (more: seq<Step>)
    requires CanRun(EMPTY, run) && t !in After(EMPTY, run).sessions && id !in After(EMPTY, run).rows
    requires forall i | i in After(EMPTY, run).rows :: !Holds(After(EMPTY, run), i, Some(key))
    ensures CanRun(EMPTY, more)
    ensures var d := After(EMPTY, run);
      After(EMPTY, more) == Database(d.rows[id := Row(Some(key), t)],
        d.sessions[t := Session(Status.Running, Idle, [Result(Some(key), Some(id), false)])])
  {
    more := Asks(run, t, Some(key));
    ghost var d, asked := After(EMPTY, run), After(EMPTY, more);
    assert !Violates(asked, t, Some(key));
    OneStepMore(more, t, Insert(id, true));
    more := more + [Step(t, Insert(id, true))];
    assert After(EMPTY, more) == Finish(WithRow(asked, t, id, Some(key)), t, Result(Some(key), Some(id), false));
    assert [] + [Result(Some(key), Some(id), false)] == [Result(Some(key), Some(id), false)];
    assert After(EMPTY, more).sessions == d.sessions[t := Session(Status.Running, Idle, [Result(Some(key), Some(id), false)])];
  }

  /* ---- The repository, with other transactions moving between its statements ---- */

  function Own(d: Database, t: Tx): map<Id, Row> {
    map id | id in d.rows && d.rows[id].owner == t :: d.rows[id]
  }

  /** What a transaction may rely on while others move: its session and its rows are untouched, committed rows stay. */
  predicate Rely(d: Database, d': Database, t: Tx, newId: Id) {
    && Sound(d') && t in d.sessions && t in d'.sessions && d'.sessions[t] == d.sessions[t]
    && Kept(d, d', t) && (newId !in d.rows ==> newId !in d'.rows)
  }

  predicate Kept(d: Database, d': Database, t: Tx) {
    Own(d', t) == Own(d, t) && CommittedStay(d, d')
  }

  predicate CommittedStay(d: Database, d': Database) {
    forall id | id in d.rows && IsCommitted(d, id) :: IsCommitted(d', id) && d'.rows[id] == d.rows[id]
  }

  /** The rely holds of every step of another transaction that does not take the id. */
  lemma OthersKeepRely(d: Database, t: Tx, u: Tx, m: Move, newId: Id)
    requires Sound(d) && t in d.sessions && u != t && CanMove(d, u, m) && !(m.Insert? && m.id == newId)
    ensures Rely(d, Apply(d, u, m), t, newId)
  {
    StepKeepsSound(d, u, m);
    var d' := Apply(d, u, m);
    forall id | id in d.rows && (IsCommitted(d, id) || d.rows[id].owner == t)
      ensures id in d'.rows && d'.rows[id] == d.rows[id] && (IsCommitted(d, id) ==> IsCommitted(d', id))
    {
      RowsStay(d, u, m, id);
    }
  }

  lemma KeptKeepsFinds(d: Database, d': Database, t: Tx, key: Option<string>, id: Id)
    requires Kept(d, d', t) && Finds(d, t, key, id)
    ensures Finds(d', t, key, id)
  {
    if d.rows[id].owner == t {
      assert id in Own(d, t);
      assert id in Own(d', t) && Own(d', t)[id] == d.rows[id];
    }
  }

  /** The state in which every other transaction still running has been given up. */
  function OnlyLeft(d: Database, t: Tx): Database {
    Database(
      map id | id in d.rows && Visible(d, t, id) :: d.rows[id],
      map u | u in d.sessions :: if u != t && IsRunning(d, u) then d.sessions[u].(status := Aborted) else d.sessions[u])
  }

  lemma ExplainedStays(d: Database, d': Database, u: Tx, phase: Phase)
    requires Explained(d, u, phase)
    requires forall id | id in d.rows && Visible(d, u, id) :: Visible(d', u, id) && d'.rows[id] == d.rows[id]
    ensures Explained(d', u, phase)
  {}

  lemma NothingToWaitFor(d: Database, t: Tx, key: Option<string>)
    ensures !MustWait(OnlyLeft(d, t), t, key)
  {}

  lemma OnlyLeftIsSound(d: Database, t: Tx, newId: Id)
    requires Sound(d) && IsRunning(d, t)
    ensures Rely(d, OnlyLeft(d, t), t, newId)
  {
    var d' := OnlyLeft(d, t);
    assert KeysUnique(d') && OwnersKnown(d');
    forall u | u in d'.sessions && d'.sessions[u].status != Aborted ensures Explained(d', u, d'.sessions[u].phase) {
      ExplainedStays(d, d', u, d.sessions[u].phase);
    }
  }

  lemma PhaseKeepsSound(d: Database, t: Tx, phase: Phase)
    requires Sound(d) && IsRunning(d, t) && Explained(d, t, phase)
    ensures Sound(In(d, t, phase)) && Kept(d, In(d, t, phase), t)
  {}

  lemma FinishKeepsSound(d: Database, t: Tx, r: Result)
    requires Sound(d) && IsRunning(d, t) && Honest(d, t, r)
    ensures Sound(Finish(d, t, r)) && Kept(d, Finish(d, t, r), t) && Honest(Finish(d, t, r), t, r)
  {}

  function WithRow(d: Database, t: Tx, id: Id, key: Option<string>): Database {
    d.(rows := d.rows[id := Row(key, t)])
  }

  lemma NewRowIsOwn(d: Database, t: Tx, id: Id, key: Option<string>)
    requires id !in d.rows
    ensures Own(WithRow(d, t, id, key), t) == Own(d, t)[id := Row(key, t)] && CommittedStay(d, WithRow(d, t, id, key))
  {}

  lemma NewKeyIsUnique(d: Database, t: Tx, id: Id, key: Option<string>)
    requires KeysUnique(d) && id !in d.rows && !MustWait(d, t, key) && !Violates(d, t, key)
    ensures KeysUnique(WithRow(d, t, id, key))
  {
    assert key.Some? ==> forall i | i in d.rows :: !Holds(d, i, key);
  }

  lemma InsertKeepsSound(d: Database, t: Tx, id: Id, key: Option<string>)
    requires Sound(d) && IsRunning(d, t) && id !in d.rows && !MustWait(d, t, key) && !Violates(d, t, key)
    ensures Sound(WithRow(d, t, id, key)) && CommittedStay(d, WithRow(d, t, id, key))
    ensures Own(WithRow(d, t, id, key), t) == Own(d, t)[id := Row(key, t)]
  {
    var d' := WithRow(d, t, id, key);
    NewRowIsOwn(d, t, id, key);
    NewKeyIsUnique(d, t, id, key);
    forall u | u in d'.sessions && d'.sessions[u].status != Aborted ensures Explained(d', u, d'.sessions[u].phase) {
      ExplainedStays(d, d', u, d.sessions[u].phase);
    }
  }

  class NotificationRepository {
    const tx: Tx
    var db: Database

    constructor (tx: Tx, db: Database)
      requires Sound(db) && IsRunning(db, tx)
      ensures this.tx == tx && this.db == db
    {
      this.tx := tx;
      this.db := db;
    }

    /** Other transactions move. */
    method Others(newId: Id)
      requires Sound(db) && tx in db.sessions
      modifies this
      ensures Rely(old(db), db, tx, newId)
    {
      var next: Database := *;
      if Rely(db, next, tx, newId) {
        db := next;
      }
    }

    /** Other transactions move until no uncommitted row holds the key. */
    method Await(key: Option<string>, newId: Id)
      requires Sound(db) && IsRunning(db, tx) && db.sessions[tx].phase == Inserting(key)
      modifies this
      ensures Rely(old(db), db, tx, newId) && !MustWait(db, tx, key)
    {
      var next: Database := *;
      if Rely(db, next, tx, newId) && !MustWait(next, tx, key) {
        db := next;
      } else {
        OnlyLeftIsSound(db, tx, newId);
        NothingToWaitFor(db, tx, key);
        db := OnlyLeft(db, tx);
      }
    }

    method ByDedupeKey(key: Option<string>) returns (row: Option<Id>)
      ensures row.Some? ==> Finds(db, tx, key, row.value)
      ensures row.None? && key.Some? ==> !Violates(db, tx, key)
    {
      if id :| id in db.rows && Holds(db, id, key) && Visible(db, tx, id) {
        row := Some(id);
      } else {
        row := None;
      }
    }

    /** Returns the row of the key, the one found or a new one; nothing else of this transaction changes. `resolves` says
        whether the new row's event, recipient and template exist. It raises exactly when the insert lost to another row with
        the empty text, or the row did not resolve and a look-up with its key finds nothing. */
    method Create(key: Option<string>, newId: Id, resolves: bool) returns (row: Option<Id>, unresolved: bool)
      requires Sound(db) && IsRunning(db, tx) && db.sessions[tx].phase == Idle && newId !in db.rows
      modifies this
      ensures Sound(db) && IsRunning(db, tx) && db.sessions[tx].phase == Idle
      ensures db.sessions[tx].results == old(db.sessions[tx].results) + [Result(key, row, unresolved)]
      ensures Honest(db, tx, Result(key, row, unresolved)) && !(resolves && unresolved)
      ensures row.None? <==> if resolves then key == Some("") && FindsOther(db, tx, key, newId) else !(Given(key) && Violates(db, tx, key))
      ensures Own(db, tx) == if row == Some(newId) then Own(old(db), tx)[newId := Row(key, tx)] else Own(old(db), tx)
      ensures CommittedStay(old(db), db)
      ensures forall id | id in old(db.rows) && Given(key) && Finds(old(db), tx, key, id) :: row == Some(id)
    {
      unresolved := false;
      PhaseKeepsSound(db, tx, Checking(key));
      db := In(db, tx, Checking(key));
      Others(newId);
      if Given(key) {
        row := ByDedupeKey(key);
        if row.Some? {
          Recall(old(db), db, tx, key, row.value);
          FinishKeepsSound(db, tx, Result(key, row, false));
          db := Finish(db, tx, Result(key, row, false));
          return;
        }
      }
      Unknown(old(db), db, tx, key);
      row, unresolved := TryInsert(key, newId, resolves);
      FinishKeepsSound(db, tx, Result(key, row, unresolved));
      db := Finish(db, tx, Result(key, row, unresolved));
    }

    /** The insert inside its savepoint. */
    method TryInsert(key: Option<string>, newId: Id, resolves: bool) returns (row: Option<Id>, unresolved: bool)
      requires Sound(db) && IsRunning(db, tx) && newId !in db.rows
      modifies this
      ensures Sound(db) && IsRunning(db, tx) && db.sessions[tx].results == old(db).sessions[tx].results
      ensures Honest(db, tx, Result(key, row, unresolved)) && !(resolves && unresolved)
      ensures row.None? <==> if resolves then key == Some("") && FindsOther(db, tx, key, newId) else !(Given(key) && Violates(db, tx, key))
      ensures Own(db, tx) == if row == Some(newId) then Own(old(db), tx)[newId := Row(key, tx)] else Own(old(db), tx)
      ensures CommittedStay(old(db), db)
    {
      unresolved := false;
      PhaseKeepsSound(db, tx, Inserting(key));
      db := In(db, tx, Inserting(key));
      Await(key, newId);
      if Violates(db, tx, key) || !resolves {
        unresolved := !Violates(db, tx, key);
        row := RecoverFrom(key, unresolved, newId);
      } else {
        InsertKeepsSound(db, tx, newId, key);
        db := WithRow(db, tx, newId, key);
        row := Some(newId);
      }
    }

    /** The savepoint is rolled back and the key looked up once more, if it counts as one. */
    method RecoverFrom(key: Option<string>, unresolved: bool, newId: Id) returns (row: Option<Id>)
      requires Sound(db) && IsRunning(db, tx) && newId !in db.rows && Explained(db, tx, Recovering(key, unresolved))
      modifies this
      ensures Sound(db) && IsRunning(db, tx) && newId !in db.rows && Kept(old(db), db, tx)
      ensures db.sessions[tx] == old(db).sessions[tx].(phase := Recovering(key, unresolved))
      ensures row.Some? ==> Finds(db, tx, key, row.value) && Given(key)
      ensures row.None? <==> !(Given(key) && Violates(db, tx, key))
      ensures Explained(db, tx, Recovering(key, unresolved))
    {
      PhaseKeepsSound(db, tx, Recovering(key, unresolved));
      db := In(db, tx, Recovering(key, unresolved));
      Others(newId);
      assert Explained(db, tx, db.sessions[tx].phase);
      row := None;
      if Given(key) {
        row := ByDedupeKey(key);
      }
    }
  }

  predicate FindsOther(d: Database, t: Tx, key: Option<string>, newId: Id) {
    exists id | id in d.rows :: id != newId && Finds(d, t, key, id)
  }

  /** A row seen before is the row seen now. */
  lemma Recall(d: Database, d': Database, t: Tx, key: Option<string>, id: Id)
    requires Sound(d') && Kept(d, d', t) && Finds(d', t, key, id) && key.Some?
    ensures forall i | i in d.rows && Finds(d, t, key, i) :: i == id
  {
    forall i | i in d.rows && Finds(d, t, key, i) ensures i == id {
      KeptKeepsFinds(d, d', t, key, i);
    }
  }

  lemma Unknown(d: Database, d': Database, t: Tx, key: Option<string>)
    requires Kept(d, d', t) && (Given(key) ==> !Violates(d', t, key))
    ensures Given(key) ==> forall i | i in d.rows :: !Finds(d, t, key, i)
  {
    forall i | i in d.rows && Given(key) ensures !Finds(d, t, key, i) {
      if Finds(d, t, key, i) {
        KeptKeepsFinds(d, d', t, key, i);
        assert false;
      }
    }
  }
}
