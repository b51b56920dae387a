/** Exactly when two creators with given lists of keys can wait for each other. */
module DedupeCircles {
  import opened Common
  import opened Dedupe
  import opened Digraph

  type Key = Option<string>

  /** The keys of the first and of the second transaction, in the order in which it creates its notifications. */
  datatype Lists = Lists(one: seq<Key>, two: seq<Key>) {
    function Of(t: Tx): seq<Key> {
      if t == 1 then one else two
    }
  }

  /** Two transactions create the notifications of their lists in order, whose rows resolve, and commit at the end. */
  predicate Obeys(d: Database, step: Step, l: Lists) {
    step.tx in {1, 2}
    && match step.move
       case Begin(key) =>
         && step.tx in d.sessions && |d.sessions[step.tx].results| < |l.Of(step.tx)|
         && key == l.Of(step.tx)[|d.sessions[step.tx].results|]
       case Insert(_, resolves) => resolves
       case Commit => step.tx in d.sessions && |d.sessions[step.tx].results| == |l.Of(step.tx)|
       case Abort => false
       case _ => true
  }

  ghost predicate Follows(run: seq<Step>, l: Lists) {
    run == [] ||
    (var init, last := run[..|run| - 1], run[|run| - 1]; Follows(init, l) && Obeys(After(EMPTY, init), last, l))
  }

  ghost predicate Leads(run: seq<Step>, l: Lists, d: Database) {
    CanRun(EMPTY, run) && Follows(run, l) && After(EMPTY, run) == d
  }

  ghost predicate Reached(l: Lists, d: Database) {
    exists run :: Leads(run, l, d)
  }

  ghost predicate CanCircle(l: Lists) {
    exists d :: Reached(l, d) && !Acyclic(WaitsGraph(d))
  }

  /** The first transaction has created j keys, the second one m others, and each next wants one that the other has. */
  predicate Crosses(l: Lists, j: nat, m: nat) {
    && j < |l.one| && m < |l.two| && l.one[j].Some? && l.two[m].Some?
    && l.one[j] in l.two[..m] && l.two[m] in l.one[..j]
    && forall key | key in l.one[..j] && key in l.two[..m] :: key.None?
  }

  /* ---- What each has created ---- */

  predicate Has(d: Database, t: Tx, key: Key) {
    exists id | id in d.rows :: Holds(d, id, key) && d.rows[id].owner == t
  }

  ghost predicate Progress(d: Database, t: Tx, list: seq<Key>)
    requires t in d.sessions
  {
    var n, phase := |d.sessions[t].results|, d.sessions[t].phase;
    && n <= |list| && (forall key :: Has(d, t, key) <==> key in list[..n])
    && (phase != Idle ==> n < |list| && phase.key == list[n])
    && (phase.Recovering? ==> Has(d, t, phase.key))
  }

  predicate AllRunning(d: Database) {
    d.sessions.Keys <= {1, 2} && forall t | t in d.sessions :: d.sessions[t].status == Status.Running
  }

  ghost predicate Going(d: Database, l: Lists) {
    AllRunning(d) && forall t | t in d.sessions :: Progress(d, t, l.Of(t))
  }

  /** While both run, a key is visible exactly to the one that has it. */
  lemma OnlyOwnVisible(d: Database, t: Tx, key: Key)
    requires AllRunning(d) && key.Some?
    ensures Violates(d, t, key) <==> Has(d, t, key)
  {}

  /** The key created, found or refused joins the ones its transaction has. */
  lemma OneMore(list: seq<Key>, n: nat)
    requires n < |list|
    ensures forall key :: key in list[..n + 1] <==> key in list[..n] || key == list[n]
  {
    assert list[..n + 1] == list[..n] + [list[n]];
  }

  lemma OthersHave(d: Database, t: Tx, m: Move, u: Tx, key: Key)
    requires CanMove(d, t, m) && m != Abort && u != t
    ensures Has(Apply(d, t, m), u, key) <==> Has(d, u, key)
  {
    var after := Apply(d, t, m);
    if Has(d, u, key) {
      var id :| id in d.rows && Holds(d, id, key) && d.rows[id].owner == u;
      assert Holds(after, id, key) && after.rows[id].owner == u;
    }
    if Has(after, u, key) {
      var id :| id in after.rows && Holds(after, id, key) && after.rows[id].owner == u;
      assert Holds(d, id, key) && d.rows[id].owner == u;
    }
  }

  lemma StepKeepsOthers(d: Database, step: Step, l: Lists, u: Tx)
    requires Going(d, l) && CanMove(d, step.tx, step.move) && step.move != Abort && u in d.sessions && u != step.tx
    ensures var after := Apply(d, step.tx, step.move);
      u in after.sessions && after.sessions[u] == d.sessions[u] && Progress(after, u, l.Of(u))
  {
    forall key ensures Has(Apply(d, step.tx, step.move), u, key) <==> Has(d, u, key) {
      OthersHave(d, step.tx, step.move, u, key);
    }
  }

  lemma OpenHasNothing(d: Database, t: Tx, list: seq<Key>)
    requires Sound(d) && t !in d.sessions
    ensures Progress(Apply(d, t, Open), t, list)
  {
    assert forall id | id in d.rows :: d.rows[id].owner != t;
  }

  lemma InsertKeepsProgress(d: Database, t: Tx, id: Id, l: Lists)
    requires Sound(d) && Going(d, l) && CanMove(d, t, Insert(id, true)) && t in d.sessions
    ensures Progress(Apply(d, t, Insert(id, true)), t, l.Of(t))
  {
    var key, n, after := d.sessions[t].phase.key, |d.sessions[t].results|, Apply(d, t, Insert(id, true));
    OneMore(l.Of(t), n);
    if key.Some? {
      OnlyOwnVisible(d, t, key);
    }
    if !Violates(d, t, key) {
      assert Holds(after, id, key) && after.rows[id].owner == t;
      forall k | Has(d, t, k) ensures Has(after, t, k) {
        var i :| i in d.rows && Holds(d, i, k) && d.rows[i].owner == t;
        assert Holds(after, i, k) && after.rows[i].owner == t;
      }
      forall k | Has(after, t, k) ensures k == key || Has(d, t, k) {
        var i :| i in after.rows && Holds(after, i, k) && after.rows[i].owner == t;
        assert i == id || Holds(d, i, k);
      }
    }
  }

  lemma StepKeepsOwn(d: Database, step: Step, l: Lists)
    requires Sound(d) && Going(d, l) && CanMove(d, step.tx, step.move) && Obeys(d, step, l) && step.move != Commit
    requires step.tx in d.sessions
    ensures Progress(Apply(d, step.tx, step.move), step.tx, l.Of(step.tx))
  {
    var t, after := step.tx, Apply(d, step.tx, step.move);
    if step.move.Insert? {
      InsertKeepsProgress(d, t, step.move.id, l);
    } else {
      assert after.rows == d.rows;
      forall key ensures Has(after, t, key) <==> Has(d, t, key) {}
      if step.move == Check || step.move == Recover {
        var key := d.sessions[t].phase.key;
        OneMore(l.Of(t), |d.sessions[t].results|);
        if key.Some? {
          OnlyOwnVisible(d, t, key);
        }
      }
    }
  }

  lemma StepKeepsRunning(d: Database, t: Tx, m: Move)
    requires AllRunning(d) && t in {1, 2} && CanMove(d, t, m) && m != Commit && m != Abort
    ensures AllRunning(Apply(d, t, m)) && Apply(d, t, m).sessions.Keys == d.sessions.Keys + {t}
    ensures t !in d.sessions ==> m == Open
  {}

  lemma StepKeepsGoing(d: Database, step: Step, l: Lists)
    requires Sound(d) && Going(d, l) && CanMove(d, step.tx, step.move) && Obeys(d, step, l) && step.move != Commit
    ensures Going(Apply(d, step.tx, step.move), l)
  {
    StepKeepsRunning(d, step.tx, step.move);
    forall u | u in d.sessions.Keys + {step.tx} ensures Progress(Apply(d, step.tx, step.move), u, l.Of(u)) {
      if u != step.tx {
        StepKeepsOthers(d, step, l, u);
      } else if u in d.sessions {
        StepKeepsOwn(d, step, l);
      } else {
        OpenHasNothing(d, u, l.Of(u));
      }
    }
  }

  /** A transaction that has ended does not run again. */
  lemma RunningBefore(d: Database, t: Tx, m: Move)
    requires CanMove(d, t, m) && AllRunning(Apply(d, t, m))
    ensures m != Commit && AllRunning(d)
  {
    var after := Apply(d, t, m);
    assert t in after.sessions;
    forall u | u in d.sessions ensures d.sessions[u].status == Status.Running {
      assert u in after.sessions;
    }
  }

  lemma {:induction false} RunIsGoing(run: seq<Step>, l: Lists)
    requires CanRun(EMPTY, run) && Follows(run, l) && AllRunning(After(EMPTY, run))
    ensures Going(After(EMPTY, run), l)
  {
    if run != [] {
      var init, last := run[..|run| - 1], run[|run| - 1];
      var before := After(EMPTY, init);
      RunningBefore(before, last.tx, last.move);
      RunIsGoing(init, l);
      RunKeepsSound(init);
      StepKeepsGoing(before, last, l);
    }
  }

  lemma {:induction false} OnlyTwo(run: seq<Step>, l: Lists)
    requires CanRun(EMPTY, run) && Follows(run, l)
    ensures After(EMPTY, run).sessions.Keys <= {1, 2}
  {
    if run != [] {
      OnlyTwo(run[..|run| - 1], l);
    }
  }

  /* ---- A circle needs crossing lists ---- */

  lemma CircleIsMutual(d: Database)
    requires d.sessions.Keys <= {1, 2} && !Acyclic(WaitsGraph(d))
    ensures WaitsFor(d, 1, 2) && WaitsFor(d, 2, 1)
  {
    var walk :| IsCycle(WaitsGraph(d), walk);
    assert WaitsGraph(d)(walk[0], walk[0 + 1]);
    assert WaitsFor(d, walk[0], walk[1]);
    assert WaitsGraph(d)(walk[1], walk[1 + 1]);
    assert WaitsFor(d, walk[1], walk[2]);
  }

  lemma WaiterWantsOthers(d: Database, l: Lists, t: Tx, u: Tx)
    requires Going(d, l) && WaitsFor(d, t, u)
    ensures var n := |d.sessions[t].results|;
      n < |l.Of(t)| && l.Of(t)[n].Some? && Has(d, u, l.Of(t)[n]) && l.Of(t)[n] in l.Of(u)[..|d.sessions[u].results|]
  {}

  lemma CircleCrosses(run: seq<Step>, l: Lists)
    requires CanRun(EMPTY, run) && Follows(run, l) && !Acyclic(WaitsGraph(After(EMPTY, run)))
    ensures exists j, m :: Crosses(l, j, m)
  {
    var d := After(EMPTY, run);
    OnlyTwo(run, l);
    CircleIsMutual(d);
    RunIsGoing(run, l);
    RunKeepsSound(run);
    WaiterWantsOthers(d, l, 1, 2);
    WaiterWantsOthers(d, l, 2, 1);
    var j, m := |d.sessions[1].results|, |d.sessions[2].results|;
    forall key | key in l.one[..j] && key in l.two[..m] ensures key.None? {
      assert Has(d, 1, key) && Has(d, 2, key);
    }
    assert Crosses(l, j, m);
  }

  /* ---- Crossing lists make a circle ---- */

  lemma ReachMore(l: Lists, d: Database, step: Step)
    requires Reached(l, d) && CanMove(d, step.tx, step.move) && Obeys(d, step, l)
    ensures Reached(l, Apply(d, step.tx, step.move))
  {
    var run :| Leads(run, l, d);
    OneStepMore(run, step.tx, step.move);
    assert (run + [step])[..|run|] == run && step == Step(step.tx, step.move);
    assert Leads(run + [step], l, Apply(d, step.tx, step.move));
  }

  lemma ReachedIsGoing(l: Lists, d: Database)
    requires Reached(l, d) && AllRunning(d)
    ensures Sound(d) && Going(d, l)
  {
    var run :| Leads(run, l, d);
    RunIsGoing(run, l);
    RunKeepsSound(run);
  }

  lemma {:induction false} FreshId(ids: set<Id>) returns (id: Id)
    ensures forall i | i in ids :: i < id
    decreases ids
  {
    id := 0;
    if ids != {} {
      var one :| one in ids;
      var above := FreshId(ids - {one});
      id := if above > one then above else one + 1;
      assert forall i | i in ids :: i == one || i in ids - {one};
    }
  }

  function Other(t: Tx): Tx {
    if t == 1 then 2 else 1
  }

  /** Both run, transaction t is in some phase and has created n of its list; the other one is where it was. */
  ghost predicate Stage(l: Lists, d: Database, t: Tx, n: nat, phase: Phase, other: Session) {
    && Reached(l, d) && d.sessions.Keys == {1, 2} && t in {1, 2} && AllRunning(d)
    && d.sessions[t].phase == phase && |d.sessions[t].results| == n && d.sessions[Other(t)] == other
  }

  /** The other transaction has not created the key, or the key does not matter. */
  predicate FreeOf(list: seq<Key>, n: nat, key: Key) {
    n <= |list| && (key in list[..n] ==> key.None?)
  }

  lemma HeldByOther(d: Database, t: Tx, key: Key)
    requires AllRunning(d) && t in {1, 2} && forall id | id in d.rows :: d.rows[id].owner in d.sessions
    ensures MustWait(d, t, key) ==> Has(d, Other(t), key)
  {
    assert forall id | id in d.rows && !Visible(d, t, id) :: d.rows[id].owner == Other(t);
  }

  lemma MayInsert(l: Lists, d: Database, t: Tx, n: nat, key: Key, other: Session)
    requires Stage(l, d, t, n, Inserting(key), other) && FreeOf(l.Of(Other(t)), |other.results|, key)
    ensures !MustWait(d, t, key)
  {
    ReachedIsGoing(l, d);
    HeldByOther(d, t, key);
  }

  /** It finds the key, or goes on to insert it. */
  lemma AskNext(l: Lists, d: Database, t: Tx, n: nat, other: Session) returns (after: Database)
    requires Stage(l, d, t, n, Idle, other) && n < |l.Of(t)|
    ensures Stage(l, after, t, n + 1, Idle, other) || Stage(l, after, t, n, Inserting(l.Of(t)[n]), other)
  {
    var key := l.Of(t)[n];
    ReachMore(l, d, Step(t, Begin(key)));
    var begun := Apply(d, t, Begin(key));
    ReachMore(l, begun, Step(t, Check));
    after := Apply(begun, t, Check);
  }

  lemma InsertNext(l: Lists, d: Database, t: Tx, n: nat, key: Key, other: Session) returns (after: Database)
    requires Stage(l, d, t, n, Inserting(key), other) && FreeOf(l.Of(Other(t)), |other.results|, key)
    ensures Stage(l, after, t, n + 1, Idle, other) || Stage(l, after, t, n, Recovering(key, false), other)
  {
    MayInsert(l, d, t, n, key, other);
    var id := FreshId(d.rows.Keys);
    assert id !in d.rows.Keys;
    ReachMore(l, d, Step(t, Insert(id, true)));
    after := Apply(d, t, Insert(id, true));
  }

  lemma RecoverNext(l: Lists, d: Database, t: Tx, n: nat, key: Key, other: Session) returns (after: Database)
    requires Stage(l, d, t, n, Recovering(key, false), other)
    ensures Stage(l, after, t, n + 1, Idle, other)
  {
    ReachMore(l, d, Step(t, Recover));
    after := Apply(d, t, Recover);
  }

  lemma CreateNext(l: Lists, d: Database, t: Tx, n: nat, other: Session) returns (after: Database)
    requires Stage(l, d, t, n, Idle, other) && n < |l.Of(t)| && FreeOf(l.Of(Other(t)), |other.results|, l.Of(t)[n])
    ensures Stage(l, after, t, n + 1, Idle, other)
  {
    after := AskNext(l, d, t, n, other);
    if after.sessions[t].phase != Idle {
      after := InsertNext(l, after, t, n, l.Of(t)[n], other);
    }
    if after.sessions[t].phase != Idle {
      after := RecoverNext(l, after, t, n, l.Of(t)[n], other);
    }
  }

  lemma {:induction false} CreateUpTo(l: Lists, d: Database, t: Tx, n: nat, other: Session) returns (after: Database)
    requires Stage(l, d, t, 0, Idle, other) && n <= |l.Of(t)|
    requires forall key | key in l.Of(t)[..n] :: FreeOf(l.Of(Other(t)), |other.results|, key)
    ensures Stage(l, after, t, n, Idle, other)
  {
    after := d;
    if n > 0 {
      OneMore(l.Of(t), n - 1);
      after := CreateUpTo(l, d, t, n - 1, other);
      after := CreateNext(l, after, t, n - 1, other);
    }
  }

  /** A transaction asks for a key that only the other one has. */
  lemma AsksForOthers(l: Lists, d: Database, t: Tx, n: nat, other: Session) returns (after: Database)
    requires Stage(l, d, t, n, Idle, other) && n < |l.Of(t)| && l.Of(t)[n].Some? && l.Of(t)[n] !in l.Of(t)[..n]
    ensures Reached(l, after) && after == In(d, t, Inserting(l.Of(t)[n]))
  {
    var key := l.Of(t)[n];
    ReachedIsGoing(l, d);
    OnlyOwnVisible(d, t, key);
    BeginThenCheck(d, t, key);
    ReachMore(l, d, Step(t, Begin(key)));
    ReachMore(l, Apply(d, t, Begin(key)), Step(t, Check));
    after := In(d, t, Inserting(key));
  }

  lemma BothOpen(l: Lists) returns (d: Database)
    ensures var idle := Session(Status.Running, Idle, []); Reached(l, d) && d == Database(map[], map[1 := idle, 2 := idle])
  {
    assert Leads([], l, EMPTY);
    ReachMore(l, EMPTY, Step(1, Open));
    ReachMore(l, Apply(EMPTY, 1, Open), Step(2, Open));
    d := Apply(Apply(EMPTY, 1, Open), 2, Open);
  }

  lemma EachWaits(l: Lists, d: Database, j: nat, m: nat)
    requires Crosses(l, j, m) && Reached(l, d) && d.sessions.Keys == {1, 2} && AllRunning(d)
    requires d.sessions[1].phase == Inserting(l.one[j]) && |d.sessions[1].results| == j
    requires d.sessions[2].phase == Inserting(l.two[m]) && |d.sessions[2].results| == m
    ensures !Acyclic(WaitsGraph(d))
  {
    ReachedIsGoing(l, d);
    assert Has(d, 2, l.one[j]) && Has(d, 1, l.two[m]);
    assert WaitsFor(d, 1, 2) && WaitsFor(d, 2, 1);
    assert WaitsGraph(d)(1, 2) && WaitsGraph(d)(2, 1);
    assert IsCycle(WaitsGraph(d), [1, 2, 1]);
  }

  lemma CrossingMakesCircle(l: Lists, j: nat, m: nat)
    requires Crosses(l, j, m)
    ensures CanCircle(l)
  {
    var d := BothOpen(l);
    d := CreateUpTo(l, d, 1, j, d.sessions[2]);
    d := CreateUpTo(l, d, 2, m, d.sessions[1]);
    var first := AsksForOthers(l, d, 1, j, d.sessions[2]);
    var both := AsksForOthers(l, first, 2, m, first.sessions[1]);
    EachWaits(l, both, j, m);
  }

  /** Two transactions with given lists of keys can wait for each other exactly when, at some point of both lists, they
      have no key in common so far and each next asks for one the other has. */
  lemma CircleIffCrossing(l: Lists)
    ensures CanCircle(l) <==> exists j, m :: Crosses(l, j, m)
  {
    if CanCircle(l) {
      var d :| Reached(l, d) && !Acyclic(WaitsGraph(d));
      var run :| Leads(run, l, d);
      CircleCrosses(run, l);
    }
    if j, m :| Crosses(l, j, m) {
      CrossingMakesCircle(l, j, m);
    }
  }
}
