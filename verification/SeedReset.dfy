/** Resetting the seeded rows: protect, clear nullable links, delete table by table. */
module SeedReset {
  import opened SeedModel
  import opened Digraph

  datatype Error = UnknownTable | ReferenceCycle
  datatype Result<T> = Ok(value: T) | Err(error: Error)

  /* ---- What the manifest and the legacy inventory register ---- */

  function Registered(d: Database): map<TableName, seq<Id>> {
    if MANIFEST_ID in Rows(d, AUDIT) then
      var row := d[AUDIT][MANIFEST_ID];
      if "after_value" in row && row["after_value"].Records? then row["after_value"].byTable else map[]
    else map[]
  }

  function Listed(m: map<TableName, seq<Id>>, t: TableName): set<Id> {
    if t in m then set i | i in m[t] else {}
  }

  function Owned(registered: map<TableName, seq<Id>>, legacy: map<TableName, seq<Id>>, t: TableName): set<Id> {
    Listed(registered, t) + Listed(legacy, t)
  }

  /** The registered ids that exist, per table with at least one registered id. */
  ghost function Candidates(d: Database, legacy: map<TableName, seq<Id>>): (m: Marks) {
    var registered := Registered(d);
    map t | t in registered.Keys + legacy.Keys && Owned(registered, legacy, t) != {}
      :: Owned(registered, legacy, t) * Rows(d, t).Keys
  }

  /* ---- Specification of the reset ---- */

  ghost predicate HardReference(s: Schema, d: Database, m: Marks, t: TableName, u: TableName) {
    exists l, r, i :: l in s.links && l.table == t && l.target == u && !l.nullable
      && r in Ids(m, t) && r in Rows(d, t) && i in Ids(m, u) && Points(d[t][r], l.column, i)
  }

  /** Table t refers to table u when a non-null foreign key of a marked row of t holds a marked row of u. */
  ghost function HardGraph(s: Schema, d: Database, m: Marks): (TableName, TableName) -> bool {
    (t, u) => HardReference(s, d, m, t, u)
  }

  /** d without the marked rows of the given tables. */
  ghost function Without(d: Database, m: Marks, tables: set<TableName>): Database {
    map t | t in d :: if t in tables then d[t] - Ids(m, t) else d[t]
  }

  ghost function WithoutManifest(d: Database): Database {
    map t | t in d :: if t == AUDIT then d[t] - {MANIFEST_ID} else d[t]
  }

  ghost function FinalMarks(s: Schema, d: Database, legacy: map<TableName, seq<Id>>): Marks {
    Deletable(s, d, Candidates(d, legacy))
  }

  ghost predicate AllKnown(s: Schema, d: Database, legacy: map<TableName, seq<Id>>) {
    Registered(d).Keys + legacy.Keys <= s.tables
  }

  ghost predicate ResetSucceeds(s: Schema, d: Database, legacy: map<TableName, seq<Id>>) {
    AllKnown(s, d, legacy) && Acyclic(HardGraph(s, d, FinalMarks(s, d, legacy)))
  }

  /** The database after a successful reset: exactly the deletable rows and the manifest are gone. */
  ghost function AfterReset(s: Schema, d: Database, legacy: map<TableName, seq<Id>>): Database {
    WithoutManifest(Without(d, FinalMarks(s, d, legacy), d.Keys))
  }

  /** A row survives a reset unchanged exactly when it is not deletable and not the manifest. */
  lemma AfterResetRow(s: Schema, d: Database, legacy: map<TableName, seq<Id>>, q: Node)
    ensures Exists(AfterReset(s, d, legacy), q) <==>
            Exists(d, q) && !Marked(FinalMarks(s, d, legacy), q) && q != Node(AUDIT, MANIFEST_ID)
    ensures Exists(AfterReset(s, d, legacy), q) ==> AfterReset(s, d, legacy)[q.table][q.id] == d[q.table][q.id]
  {}

  /** How many registered rows per table were protected; tables without any are not listed. */
  function ProtectedCounts(original: Marks, kept: Marks): map<TableName, nat> {
    map t | t in original && original[t] - Ids(kept, t) != {} :: |original[t] - Ids(kept, t)|
  }

  /* ---- Clearing nullable links ---- */

  predicate Cleared(links: seq<Link>, m: Marks, t: TableName, column: Column, v: Value) {
    v.Uuid? && exists l :: l in links && l.table == t && l.column == column && l.nullable && v.id in Ids(m, l.target)
  }

  function ClearedRow(links: seq<Link>, m: Marks, t: TableName, row: Row): Row {
    map c | c in row :: if Cleared(links, m, t, c, row[c]) then Null else row[c]
  }

  /** d with every nullable link (of the given ones) from a marked row to a marked row set to null. */
  function ClearLinks(links: seq<Link>, m: Marks, d: Database): Database {
    map t | t in d :: map i | i in d[t] :: if i in Ids(m, t) then ClearedRow(links, m, t, d[t][i]) else d[t][i]
  }

  lemma ClearNoLinks(m: Marks, d: Database)
    ensures ClearLinks([], m, d) == d
  {
    forall t, i | t in d && i in d[t] ensures ClearedRow([], m, t, d[t][i]) == d[t][i] {}
    forall t | t in d ensures ClearLinks([], m, d)[t] == d[t] {}
  }

  lemma ClearedRowOneMore(links: seq<Link>, l: Link, m: Marks, t: TableName, row: Row)
    ensures ClearedRow(links + [l], m, t, row) == ClearedRow([l], m, t, ClearedRow(links, m, t, row))
  {
    forall c | c in row
      ensures Cleared(links + [l], m, t, c, row[c]) <==>
              Cleared(links, m, t, c, row[c]) || Cleared([l], m, t, c, row[c])
    {}
  }

  lemma ClearedTableOneMore(links: seq<Link>, l: Link, m: Marks, d: Database, t: TableName)
    requires t in d
    ensures ClearLinks(links + [l], m, d)[t] == ClearLinks([l], m, ClearLinks(links, m, d))[t]
  {
    var middle := ClearLinks(links, m, d);
    var once, twice := ClearLinks(links + [l], m, d)[t], ClearLinks([l], m, middle)[t];
    assert once.Keys == d[t].Keys && middle[t].Keys == d[t].Keys && twice.Keys == d[t].Keys;
    forall i | i in d[t] ensures once[i] == twice[i] {
      if i in Ids(m, t) {
        ClearedRowOneMore(links, l, m, t, d[t][i]);
        assert middle[t][i] == ClearedRow(links, m, t, d[t][i]);
      }
    }
  }

  lemma ClearOneMore(links: seq<Link>, l: Link, m: Marks, d: Database)
    ensures ClearLinks(links + [l], m, d) == ClearLinks([l], m, ClearLinks(links, m, d))
  {
    forall t | t in d ensures ClearLinks(links + [l], m, d)[t] == ClearLinks([l], m, ClearLinks(links, m, d))[t] {
      ClearedTableOneMore(links, l, m, d, t);
    }
  }

  /** A link of the cleared database is a link of the original one. */
  lemma ClearedEdges(s: Schema, links: seq<Link>, m: Marks, d: Database, l: Link, p: Node, q: Node)
    requires LinkEdge(ClearLinks(links, m, d), l, p, q)
    ensures LinkEdge(d, l, p, q)
  {}

  lemma ClearKeepsNoDangling(s: Schema, links: seq<Link>, m: Marks, d: Database)
    requires NoDangling(s, d)
    ensures NoDangling(s, ClearLinks(links, m, d))
  {
    var cleared := ClearLinks(links, m, d);
    forall l, p, q | l in s.links && LinkEdge(cleared, l, p, q) ensures Exists(cleared, q) {
      ClearedEdges(s, links, m, d, l, p, q);
    }
  }

  /** Between marked rows, the links that survive clearing are the non-null ones. */
  lemma SurvivingLinks(s: Schema, m: Marks, d: Database, l: Link, r: Id, i: Id)
    requires ValidSchema(s) && l in s.links
    requires r in Ids(m, l.table) && r in Rows(d, l.table) && i in Ids(m, l.target)
    ensures Points(ClearLinks(s.links, m, d)[l.table][r], l.column, i) <==> !l.nullable && Points(d[l.table][r], l.column, i)
  {}

  /* ---- Deleting one table ---- */

  /** Deleting the marked rows of one more table leaves no dangling reference when nothing pending refers to them. */
  lemma DeleteKeepsNoDangling(s: Schema, d: Database, m: Marks, gone: set<TableName>, name: TableName)
    requires NoDangling(s, Without(d, m, gone))
    requires forall l, p, q | l in s.links && LinkEdge(d, l, p, q) && Marked(m, q) :: Marked(m, p)
    requires forall l, p, q | l in s.links && LinkEdge(d, l, p, q) && Marked(m, p) && Marked(m, q) && q.table == name
               :: p.table in gone
    ensures NoDangling(s, Without(d, m, gone + {name}))
  {
    var before, after := Without(d, m, gone), Without(d, m, gone + {name});
    forall l, p, q | l in s.links && LinkEdge(after, l, p, q) ensures Exists(after, q) {
      assert LinkEdge(before, l, p, q);
      assert LinkEdge(d, l, p, q);
      assert Exists(before, q);
    }
  }

  ghost predicate AllSound(s: Schema, trace: seq<Database>) {
    forall d | d in trace :: NoDangling(s, d)
  }

  lemma AllSoundMore(s: Schema, trace: seq<Database>, d: Database)
    requires AllSound(s, trace) && NoDangling(s, d)
    ensures AllSound(s, trace + [d])
  {}

  /* ---- Single statements ---- */

  /** e is d after one update statement: one nullable link between marked rows is cleared. */
  ghost predicate ClearsOneLink(s: Schema, m: Marks, d: Database, e: Database) {
    exists l :: l in s.links && l.nullable && e == ClearLinks([l], m, d)
  }

  /** e is d after one delete statement: all marked rows of one table are gone. */
  ghost predicate DeletesOneTable(m: Marks, d: Database, e: Database) {
    exists t :: t in m && t in d && e == d[t := d[t] - m[t]]
  }

  ghost function ClearSteps(s: Schema, m: Marks): (Database, Database) -> bool {
    (d, e) => ClearsOneLink(s, m, d, e)
  }

  ghost function DeleteSteps(m: Marks): (Database, Database) -> bool {
    (d, e) => DeletesOneTable(m, d, e)
  }

  ghost function ResetSteps(s: Schema, m: Marks): (Database, Database) -> bool {
    (d, e) => ClearsOneLink(s, m, d, e) || DeletesOneTable(m, d, e)
  }

  /** Clearing statements followed by deleting statements. */
  lemma StatementsInOrder(s: Schema, m: Marks, clearing: seq<Database>, deleting: seq<Database>, d: Database, mid: Database, e: Database)
    requires Connects(ClearSteps(s, m), clearing, d, mid) && Connects(DeleteSteps(m), deleting, mid, e)
    ensures Connects(ResetSteps(s, m), clearing + deleting[1..], d, e)
    ensures AllSound(s, clearing) && AllSound(s, deleting) ==> AllSound(s, clearing + deleting[1..])
  {
    ConnectsAlso(ClearSteps(s, m), ResetSteps(s, m), clearing, d, mid);
    ConnectsAlso(DeleteSteps(m), ResetSteps(s, m), deleting, mid, e);
    ConnectsOn(ResetSteps(s, m), clearing, deleting, d, mid, e);
  }

  /** The databases that a reset goes through, one statement apart, up to the deletion of the manifest at the end of a
      successful one; all of them keep every foreign key resolved if the first one does. */
  ghost predicate ResetRun(s: Schema, d: Database, m: Marks, trace: seq<Database>, ok: bool, now: Database) {
    && |trace| >= 1 && Connects(ResetSteps(s, m), trace, d, trace[|trace| - 1])
    && now == (if ok then WithoutManifest(trace[|trace| - 1]) else trace[|trace| - 1])
    && (NoDangling(s, d) ==> AllSound(s, trace))
  }

  lemma NothingRun(s: Schema, d: Database, m: Marks)
    ensures ResetRun(s, d, m, [d], false, d)
  {}

  lemma ResetDone(s: Schema, d: Database, m: Marks, trace: seq<Database>, last: Database)
    requires Connects(ResetSteps(s, m), trace, d, last) && (NoDangling(s, d) ==> AllSound(s, trace))
    ensures ResetRun(s, d, m, trace, true, WithoutManifest(last))
    ensures NoDangling(s, d) && (forall l | l in s.links :: l.target != AUDIT) ==> NoDangling(s, WithoutManifest(last))
  {
    if NoDangling(s, d) && forall l | l in s.links :: l.target != AUDIT {
      assert last in trace;
      ManifestGoesSoundly(s, last);
    }
  }

  /** Without foreign keys into the audit table, its manifest row can go. */
  lemma ManifestGoesSoundly(s: Schema, d: Database)
    requires NoDangling(s, d) && forall l | l in s.links :: l.target != AUDIT
    ensures NoDangling(s, WithoutManifest(d))
  {
    forall l, p, q | l in s.links && LinkEdge(WithoutManifest(d), l, p, q) ensures Exists(WithoutManifest(d), q) {
      assert LinkEdge(d, l, p, q);
    }
  }

  /* ---- The deletion loop ---- */

  predicate StillHeld(d: Database, l: Link, own: set<Id>, ids: set<Id>) {
    exists r :: r in own && r in Rows(d, l.table) && exists i :: i in ids && Points(d[l.table][r], l.column, i)
  }

  /** Some row still pending holds, through a foreign key, a pending row of the table. */
  predicate IsBlocked(links: seq<Link>, d: Database, name: TableName, pending: Marks) {
    exists l :: l in links && l.target == name && StillHeld(d, l, Ids(pending, l.table), Ids(pending, name))
  }

  /** The marked tables are split into the pending ones and the ones already deleted. */
  ghost predicate Deleting(m: Marks, pending: Marks, gone: set<TableName>) {
    && (forall t | t in pending :: t in m && m[t] != {} && pending[t] == m[t])
    && (forall t :: t in gone <==> t in m && m[t] != {} && t !in pending)
  }

  /** Deleted tables are ranked in deletion order, which respects the references. */
  ghost predicate Ordered(graph: (TableName, TableName) -> bool, rank: map<TableName, nat>) {
    && (forall t | t in rank :: rank[t] < |rank|)
    && forall t, u | graph(t, u) && u in rank :: t in rank && rank[t] < rank[u]
  }

  lemma RemoveKey<K, V>(m: map<K, V>, k: K)
    requires k in m
    ensures |m - {k}| < |m|
  {}

  lemma HardReferenceByLink(s: Schema, m: Marks, d: Database, l: Link)
    requires ValidSchema(s) && l in s.links
    ensures StillHeld(ClearLinks(s.links, m, d), l, Ids(m, l.table), Ids(m, l.target)) ==> HardReference(s, d, m, l.table, l.target)
  {}

  lemma LinkOfHardReference(s: Schema, m: Marks, d: Database, t: TableName, u: TableName) returns (l: Link)
    requires ValidSchema(s) && HardReference(s, d, m, t, u)
    ensures l in s.links && l.table == t && l.target == u
    ensures StillHeld(ClearLinks(s.links, m, d), l, Ids(m, t), Ids(m, u))
  {
    var k, r, i :| k in s.links && k.table == t && k.target == u && !k.nullable
      && r in Ids(m, t) && r in Rows(d, t) && i in Ids(m, u) && Points(d[t][r], k.column, i);
    l := k;
    SurvivingLinks(s, m, d, l, r, i);
    assert r in Rows(ClearLinks(s.links, m, d), t);
  }

  /** Rows of pending tables are as they were when the deletion began. */
  lemma PendingAsCleared(d: Database, m: Marks, cleared: Database, pending: Marks, gone: set<TableName>, l: Link)
    requires Deleting(m, pending, gone) && l.table in pending && l.target in pending
    ensures StillHeld(Without(cleared, m, gone), l, Ids(pending, l.table), Ids(pending, l.target))
            <==> StillHeld(cleared, l, Ids(m, l.table), Ids(m, l.target))
  {
    assert l.table !in gone && Ids(pending, l.table) == Ids(m, l.table) && Ids(pending, l.target) == Ids(m, l.target);
    assert Rows(Without(cleared, m, gone), l.table) == Rows(cleared, l.table);
  }

  lemma BlockedHasPredecessor(s: Schema, d: Database, m: Marks, pending: Marks, gone: set<TableName>, name: TableName)
    requires ValidSchema(s) && Deleting(m, pending, gone) && name in pending
    requires IsBlocked(s.links, Without(ClearLinks(s.links, m, d), m, gone), name, pending)
    ensures HasPredecessor(HardGraph(s, d, m), pending.Keys, name)
  {
    var cleared := ClearLinks(s.links, m, d);
    var l :| l in s.links && l.target == name && StillHeld(Without(cleared, m, gone), l, Ids(pending, l.table), Ids(pending, name));
    assert l.table in pending;
    PendingAsCleared(d, m, cleared, pending, gone, l);
    HardReferenceByLink(s, m, d, l);
    assert HardGraph(s, d, m)(l.table, name);
  }

  lemma PredecessorBlocks(s: Schema, d: Database, m: Marks, pending: Marks, gone: set<TableName>, name: TableName)
    requires ValidSchema(s) && Deleting(m, pending, gone) && name in pending
    requires HasPredecessor(HardGraph(s, d, m), pending.Keys, name)
    ensures IsBlocked(s.links, Without(ClearLinks(s.links, m, d), m, gone), name, pending)
  {
    var t :| t in pending.Keys && HardGraph(s, d, m)(t, name);
    var l := LinkOfHardReference(s, m, d, t, name);
    PendingAsCleared(d, m, ClearLinks(s.links, m, d), pending, gone, l);
  }

  /** Blocked tables are those with a predecessor, among the pending ones, in the graph of non-null references. */
  lemma BlockedIffPredecessor(s: Schema, d: Database, m: Marks, now: Database, pending: Marks, gone: set<TableName>, name: TableName)
    requires ValidSchema(s) && d.Keys == s.tables
    requires Deleting(m, pending, gone) && name in pending
    requires now == Without(ClearLinks(s.links, m, d), m, gone)
    ensures IsBlocked(s.links, now, name, pending) <==> HasPredecessor(HardGraph(s, d, m), pending.Keys, name)
  {
    if IsBlocked(s.links, now, name, pending) {
      BlockedHasPredecessor(s, d, m, pending, gone, name);
    }
    if HasPredecessor(HardGraph(s, d, m), pending.Keys, name) {
      PredecessorBlocks(s, d, m, pending, gone, name);
    }
  }

  lemma PredecessorsGone(graph: (TableName, TableName) -> bool, m: Marks, pending: Marks, gone: set<TableName>, name: TableName)
    requires Deleting(m, pending, gone) && !HasPredecessor(graph, pending.Keys, name)
    requires forall t, u | graph(t, u) :: t in m && m[t] != {}
    ensures forall t | graph(t, name) :: t in gone
  {}

  lemma AddRank(rank: map<TableName, nat>, name: TableName, k: nat)
    ensures rank[name := k].Keys == rank.Keys + {name}
  {}

  lemma OrderedNext(graph: (TableName, TableName) -> bool, rank: map<TableName, nat>, name: TableName)
    requires Ordered(graph, rank) && name !in rank && forall t | graph(t, name) :: t in rank
    ensures Ordered(graph, rank[name := |rank|])
  {
    AddRank(rank, name, |rank|);
    assert |rank.Keys + {name}| == |rank| + 1;
    assert |rank[name := |rank|]| == |rank[name := |rank|].Keys|;
  }

  /** An unblocked table can be deleted next: everything that refers to it is already ranked. */
  lemma RankNext(graph: (TableName, TableName) -> bool, m: Marks, pending: Marks, rank: map<TableName, nat>, name: TableName)
    requires Deleting(m, pending, rank.Keys) && name in pending && Ordered(graph, rank)
    requires forall t, u | graph(t, u) :: t in m && m[t] != {}
    requires !HasPredecessor(graph, pending.Keys, name)
    ensures Deleting(m, pending - {name}, rank.Keys + {name})
    ensures Ordered(graph, rank[name := |rank|])
    ensures forall t | graph(t, name) :: t in rank
  {
    PredecessorsGone(graph, m, pending, rank.Keys, name);
    OrderedNext(graph, rank, name);
  }

  lemma GraphIsMarked(s: Schema, d: Database, m: Marks)
    ensures forall t, u | HardGraph(s, d, m)(t, u) :: t in m && m[t] != {} && u in m && m[u] != {}
  {}

  lemma HardReferenceOfEdge(s: Schema, d: Database, m: Marks, l: Link, p: Node, q: Node)
    requires ValidSchema(s) && l in s.links && LinkEdge(ClearLinks(s.links, m, d), l, p, q)
    requires Marked(m, p) && Marked(m, q)
    ensures HardReference(s, d, m, p.table, q.table)
  {}

  /** Deleting it then leaves no dangling reference. */
  lemma DeleteNext(s: Schema, d: Database, m: Marks, gone: set<TableName>, name: TableName)
    requires ValidSchema(s) && Closed(s, d, m)
    requires forall t | HardGraph(s, d, m)(t, name) :: t in gone
    requires NoDangling(s, Without(ClearLinks(s.links, m, d), m, gone))
    ensures NoDangling(s, Without(ClearLinks(s.links, m, d), m, gone + {name}))
  {
    var cleared := ClearLinks(s.links, m, d);
    forall l, p, q | l in s.links && LinkEdge(cleared, l, p, q) && Marked(m, q) ensures Marked(m, p) {
      ClearedEdges(s, s.links, m, d, l, p, q);
      assert References(s, d, p, q);
    }
    forall l, p, q | l in s.links && LinkEdge(cleared, l, p, q) && Marked(m, p) && Marked(m, q) && q.table == name
      ensures p.table in gone
    {
      HardReferenceOfEdge(s, d, m, l, p, q);
      assert HardGraph(s, d, m)(p.table, q.table);
    }
    DeleteKeepsNoDangling(s, cleared, m, gone, name);
  }

  /** State of the deletion loop. */
  ghost predicate Deleted(s: Schema, d: Database, m: Marks, now: Database, pending: Marks, rank: map<TableName, nat>) {
    && ValidSchema(s) && d.Keys == s.tables && m.Keys <= s.tables && Closed(s, d, m)
    && Deleting(m, pending, rank.Keys) && Ordered(HardGraph(s, d, m), rank)
    && now == Without(ClearLinks(s.links, m, d), m, rank.Keys)
  }

  function Nonempty(m: Marks): Marks {
    map t | t in m && m[t] != {} :: m[t]
  }

  lemma StartDeleting(s: Schema, d: Database, m: Marks)
    requires ValidSchema(s) && d.Keys == s.tables && m.Keys <= s.tables && Closed(s, d, m)
    ensures Deleted(s, d, m, ClearLinks(s.links, m, d), Nonempty(m), map[])
    ensures NoDangling(s, d) ==> NoDangling(s, ClearLinks(s.links, m, d))
  {
    var cleared := ClearLinks(s.links, m, d);
    assert cleared == Without(cleared, m, {});
    if NoDangling(s, d) {
      ClearKeepsNoDangling(s, s.links, m, d);
    }
  }

  lemma WithoutOneMore(d: Database, m: Marks, gone: set<TableName>, name: TableName)
    requires name in d && name !in gone
    ensures var now := Without(d, m, gone);
            now[name := now[name] - Ids(m, name)] == Without(d, m, gone + {name})
  {}

  lemma StepDeleting(s: Schema, d: Database, m: Marks, now: Database, pending: Marks, rank: map<TableName, nat>, name: TableName)
    requires Deleted(s, d, m, now, pending, rank) && name in pending
    requires !HasPredecessor(HardGraph(s, d, m), pending.Keys, name)
    ensures name in now && |pending - {name}| < |pending|
    ensures Deleted(s, d, m, now[name := now[name] - pending[name]], pending - {name}, rank[name := |rank|])
  {
    RemoveKey(pending, name);
    AddRank(rank, name, |rank|);
    WithoutOneMore(ClearLinks(s.links, m, d), m, rank.Keys, name);
    GraphIsMarked(s, d, m);
    RankNext(HardGraph(s, d, m), m, pending, rank, name);
  }

  lemma StepSound(s: Schema, d: Database, m: Marks, now: Database, pending: Marks, rank: map<TableName, nat>, name: TableName)
    requires Deleted(s, d, m, now, pending, rank) && name in pending && name in now
    requires !HasPredecessor(HardGraph(s, d, m), pending.Keys, name)
    requires NoDangling(s, now)
    ensures NoDangling(s, now[name := now[name] - pending[name]])
  {
    GraphIsMarked(s, d, m);
    PredecessorsGone(HardGraph(s, d, m), m, pending, rank.Keys, name);
    DeleteNext(s, d, m, rank.Keys, name);
    WithoutOneMore(ClearLinks(s.links, m, d), m, rank.Keys, name);
  }

  /** One more delete statement on the trace. */
  lemma DeletedMore(s: Schema, m: Marks, trace0: seq<Database>, start: Database, before: Database, now: Database)
      returns (trace: seq<Database>)
    requires Connects(DeleteSteps(m), trace0, start, before) && (before == now || DeletesOneTable(m, before, now))
    requires NoDangling(s, start) ==> AllSound(s, trace0)
    requires NoDangling(s, before) ==> NoDangling(s, now)
    ensures Connects(DeleteSteps(m), trace, start, now)
    ensures NoDangling(s, start) ==> AllSound(s, trace)
  {
    if before == now {
      return trace0;
    }
    trace := trace0 + [now];
    ConnectsMore(DeleteSteps(m), trace0, start, before, now);
    if NoDangling(s, start) {
      assert before in trace0;
      AllSoundMore(s, trace0, now);
    }
  }

  lemma PassAppended(s: Schema, m: Marks, d: Database, trace: seq<Database>, more: seq<Database>, start: Database,
                     before: Database, now: Database)
    requires Connects(DeleteSteps(m), trace, start, before) && Connects(DeleteSteps(m), more, before, now)
    requires NoDangling(s, d) ==> AllSound(s, trace) && AllSound(s, more)
    ensures Connects(DeleteSteps(m), trace + more[1..], start, now)
    ensures NoDangling(s, d) ==> AllSound(s, trace + more[1..])
  {
    ConnectsOn(DeleteSteps(m), trace, more, start, before, now);
  }

  /** Every table of the part has a predecessor among the given ones. */
  ghost predicate AllBlocked(graph: (TableName, TableName) -> bool, among: set<TableName>, part: set<TableName>) {
    forall u {:trigger HasPredecessor(graph, among, u)} | u in part :: HasPredecessor(graph, among, u)
  }

  lemma OneMoreBlocked(graph: (TableName, TableName) -> bool, among: set<TableName>, todo: set<TableName>, name: TableName)
    requires name in todo && todo <= among
    ensures AllBlocked(graph, among, among - (todo - {name})) <==>
            AllBlocked(graph, among, among - todo) && HasPredecessor(graph, among, name)
  {
    assert among - (todo - {name}) == (among - todo) + {name};
  }

  lemma NoProgressMeansCycle(graph: (TableName, TableName) -> bool, names: set<TableName>)
    requires names != {} && AllBlocked(graph, names, names)
    ensures !Acyclic(graph)
  {
    var name :| name in names;
    BlockedSetHasCycle(graph, names, [name]);
  }

  lemma EndDeleting(s: Schema, d: Database, m: Marks, now: Database, rank: map<TableName, nat>)
    requires Deleted(s, d, m, now, map[], rank)
    ensures Acyclic(HardGraph(s, d, m)) && now == Without(d, m, d.Keys)
  {
    EverythingRanked(s, d, m, rank);
    EverythingGone(s, d, m, rank.Keys);
  }

  lemma EverythingRanked(s: Schema, d: Database, m: Marks, rank: map<TableName, nat>)
    requires Deleting(m, map[], rank.Keys) && Ordered(HardGraph(s, d, m), rank)
    ensures Acyclic(HardGraph(s, d, m))
  {
    GraphIsMarked(s, d, m);
    RankedIsAcyclic(HardGraph(s, d, m), rank);
  }

  lemma EverythingGone(s: Schema, d: Database, m: Marks, gone: set<TableName>)
    requires Deleting(m, map[], gone)
    ensures Without(ClearLinks(s.links, m, d), m, gone) == Without(d, m, d.Keys)
  {
    forall t | t in d ensures Without(ClearLinks(s.links, m, d), m, gone)[t] == d[t] - Ids(m, t) {}
  }

  /** A row to delete whose non-null column points into its own table, even at itself, makes the reset fail. */
  lemma SelfReferenceFails(s: Schema, d: Database, legacy: map<TableName, seq<Id>>, t: TableName)
    requires HardReference(s, d, FinalMarks(s, d, legacy), t, t)
    ensures !ResetSucceeds(s, d, legacy)
  {
    assert IsCycle(HardGraph(s, d, FinalMarks(s, d, legacy)), [t, t]);
  }

  /* ---- The session ---- */

  /** One transaction on the database: the tables it sees, and the fixed schema and inventory. */
  class Session {
    var tables: Database
    const schema: Schema
    const legacy: map<TableName, seq<Id>>

    ghost predicate Valid()
      reads this
    {
      ValidSchema(schema) && tables.Keys == schema.tables
    }

    constructor (schema: Schema, legacy: map<TableName, seq<Id>>, tables: Database)
      requires ValidSchema(schema) && tables.Keys == schema.tables
      ensures Valid() && this.schema == schema && this.legacy == legacy && this.tables == tables
    {
      this.schema, this.legacy, this.tables := schema, legacy, tables;
    }

    /** The existing registered rows; fails on a table that the schema does not know. */
    method CollectCandidates() returns (r: Result<Marks>)
      requires Valid()
      ensures r.Ok? <==> AllKnown(schema, tables, legacy)
      ensures r.Ok? ==> r.value == Candidates(tables, legacy)
    {
      var registered := Registered(tables);
      var names := registered.Keys + legacy.Keys;
      var candidates: Marks := map[];
      var todo := names;
      while todo != {}
        invariant todo <= names && names - todo <= schema.tables
        invariant candidates == map t | t in names - todo && Owned(registered, legacy, t) != {}
                                  :: Owned(registered, legacy, t) * Rows(tables, t).Keys
      {
        var name :| name in todo;
        if name !in schema.tables {
          return Err(UnknownTable);
        }
        var ids := Owned(registered, legacy, name);
        if ids != {} {
          candidates := candidates[name := set i | i in ids && i in tables[name]];
          assert candidates[name] == Owned(registered, legacy, name) * Rows(tables, name).Keys;
        }
        assert names - (todo - {name}) == (names - todo) + {name};
        todo := todo - {name};
      }
      r := Ok(candidates);
    }

    /** Ids of marked rows that an unmarked audit row (not the manifest) mentions under the rule. */
    function MentionedByAudit(rule: AuditRule, audited: set<Id>, ids: set<Id>): set<Id>
      reads this
    {
      set i | i in ids && exists r ::
        r in Rows(tables, AUDIT) && r !in audited + {MANIFEST_ID}
        && RuleApplies(tables[AUDIT][r], rule) && Points(tables[AUDIT][r], rule.column, i)
    }

    /** Ids of marked rows that an unmarked row holds through the link. */
    function HeldThrough(l: Link, own: set<Id>, ids: set<Id>): set<Id>
      reads this
    {
      set i | i in ids && exists r :: r in Rows(tables, l.table) && r !in own && Points(tables[l.table][r], l.column, i)
    }

    /** Progress of one pass of the protection loop from `start`. */
    ghost predicate Shrinking(original: Marks, start: Marks, now: Marks, changed: bool)
      reads this
    {
      && now.Keys == original.Keys && (forall t | t in original :: now[t] <= original[t])
      && Nodes(now) <= Nodes(start) && (changed ==> Nodes(now) < Nodes(start)) && (!changed ==> now == start)
      && forall q | Marked(original, q) && !Marked(now, q) :: Reached(schema, tables, original, q)
    }

    /** Removing rows that unmarked rows refer to keeps every removed row reached. */
    lemma Shrink(original: Marks, start: Marks, now: Marks, changed: bool, target: TableName, gone: set<Id>)
      requires Shrinking(original, start, now, changed)
      requires target in now && gone <= now[target] && gone != {}
      requires forall i | i in gone :: exists p :: References(schema, tables, p, Node(target, i)) && !Marked(now, p)
      ensures Shrinking(original, start, now[target := now[target] - gone], true)
    {
      var next := now[target := now[target] - gone];
      forall q | Marked(original, q) && !Marked(next, q) ensures Reached(schema, tables, original, q) {
        if Marked(now, q) {
          assert q == Node(target, q.id) && q.id in gone;
          var p :| References(schema, tables, p, q) && !Marked(now, p);
          ReachedByReference(schema, tables, original, p, q);
        }
      }
      var i :| i in gone;
      assert Node(target, i) in Nodes(now) - Nodes(next);
    }

    method ProtectFromAudit(ghost original: Marks, start: Marks) returns (candidates: Marks, changed: bool)
      requires Valid() && Shrinking(original, start, start, false)
      ensures Shrinking(original, start, candidates, changed)
      ensures !changed ==> forall rule | rule in AUDIT_RULES :: MentionedByAudit(rule, Ids(start, AUDIT), Ids(start, rule.target)) == {}
    {
      candidates, changed := start, false;
      var audited := Ids(candidates, AUDIT);
      for k := 0 to |AUDIT_RULES|
        invariant Shrinking(original, start, candidates, changed)
        invariant Ids(candidates, AUDIT) == audited
        invariant !changed ==> forall j | 0 <= j < k ::
                    MentionedByAudit(AUDIT_RULES[j], audited, Ids(start, AUDIT_RULES[j].target)) == {}
      {
        var rule := AUDIT_RULES[k];
        var ids := Ids(candidates, rule.target);
        if ids != {} {
          var shielded := MentionedByAudit(rule, audited, ids);
          if shielded != {} {
            forall i | i in shielded
              ensures exists p :: References(schema, tables, p, Node(rule.target, i)) && !Marked(candidates, p)
            {
              var r :| r in Rows(tables, AUDIT) && r !in audited + {MANIFEST_ID}
                && RuleApplies(tables[AUDIT][r], rule) && Points(tables[AUDIT][r], rule.column, i);
              assert rule in AUDIT_RULES && AuditEdge(tables, rule, Node(AUDIT, r), Node(rule.target, i));
              assert References(schema, tables, Node(AUDIT, r), Node(rule.target, i)) && !Marked(candidates, Node(AUDIT, r));
            }
            Shrink(original, start, candidates, changed, rule.target, shielded);
            candidates := candidates[rule.target := candidates[rule.target] - shielded];
            changed := true;
          }
        }
      }
    }

    method ProtectFromLinks(ghost original: Marks, ghost start: Marks, before: Marks, changedBefore: bool)
        returns (candidates: Marks, changed: bool)
      requires Valid() && Shrinking(original, start, before, changedBefore)
      ensures Shrinking(original, start, candidates, changed)
      ensures !changed ==> !changedBefore
      ensures !changed ==> forall l | l in schema.links :: HeldThrough(l, Ids(start, l.table), Ids(start, l.target)) == {}
    {
      candidates, changed := before, changedBefore;
      for k := 0 to |schema.links|
        invariant Shrinking(original, start, candidates, changed)
        invariant !changed ==> !changedBefore
        invariant !changed ==> forall j | 0 <= j < k ::
                    HeldThrough(schema.links[j], Ids(start, schema.links[j].table), Ids(start, schema.links[j].target)) == {}
      {
        var l := schema.links[k];
        var ids := Ids(candidates, l.target);
        if ids != {} {
          var shielded := HeldThrough(l, Ids(candidates, l.table), ids);
          if shielded != {} {
            forall i | i in shielded
              ensures exists p :: References(schema, tables, p, Node(l.target, i)) && !Marked(candidates, p)
            {
              var r :| r in Rows(tables, l.table) && r !in Ids(candidates, l.table) && Points(tables[l.table][r], l.column, i);
              assert LinkEdge(tables, l, Node(l.table, r), Node(l.target, i));
              assert References(schema, tables, Node(l.table, r), Node(l.target, i)) && !Marked(candidates, Node(l.table, r));
            }
            Shrink(original, start, candidates, changed, l.target, shielded);
            candidates := candidates[l.target := candidates[l.target] - shielded];
            changed := true;
          }
        }
      }
    }

    /** Once a pass finds nothing more to protect, the remaining rows are exactly the deletable ones. */
    lemma StableIsDeletable(original: Marks, now: Marks)
      requires Valid() && Shrinking(original, now, now, false)
      requires forall rule | rule in AUDIT_RULES :: MentionedByAudit(rule, Ids(now, AUDIT), Ids(now, rule.target)) == {}
      requires forall l | l in schema.links :: HeldThrough(l, Ids(now, l.table), Ids(now, l.target)) == {}
      ensures now == Deletable(schema, tables, original)
    {
      forall p, q | References(schema, tables, p, q) && Marked(now, q) ensures Marked(now, p) {
        if l :| l in schema.links && LinkEdge(tables, l, p, q) {
          assert Marked(now, p) || q.id in HeldThrough(l, Ids(now, l.table), Ids(now, l.target));
        } else {
          var rule :| rule in AUDIT_RULES && AuditEdge(tables, rule, p, q);
          assert Marked(now, p) || q.id in MentionedByAudit(rule, Ids(now, AUDIT), Ids(now, rule.target));
        }
      }
      DeletableIsGreatestClosed(schema, tables, original);
      var best := Deletable(schema, tables, original);
      assert Within(now, best);
      forall t | t in original ensures now[t] == best[t] {
        forall i ensures i in now[t] <==> i in best[t] {
          DeletableMarks(schema, tables, original, Node(t, i));
        }
      }
    }

    /** The protection loop: repeat until nothing outside refers to a candidate. */
    method Protect(original: Marks) returns (candidates: Marks)
      requires Valid()
      ensures candidates == Deletable(schema, tables, original)
    {
      candidates := original;
      var changed := true;
      while changed
        invariant Shrinking(original, candidates, candidates, false)
        invariant !changed ==> candidates == Deletable(schema, tables, original)
        decreases Nodes(candidates), changed
      {
        ghost var start := candidates;
        candidates, changed := ProtectFromAudit(original, candidates);
        candidates, changed := ProtectFromLinks(original, start, candidates, changed);
        if !changed {
          StableIsDeletable(original, candidates);
        }
      }
    }

    /** Sets to null every nullable link between two marked rows, one statement per foreign key. */
    method ClearNullableLinks(m: Marks) returns (ghost trace: seq<Database>)
      requires Valid()
      modifies this
      ensures Valid() && tables == ClearLinks(schema.links, m, old(tables))
      ensures Connects(ClearSteps(schema, m), trace, old(tables), tables)
      ensures NoDangling(schema, old(tables)) ==> AllSound(schema, trace)
    {
      trace := [tables];
      ClearNoLinks(m, tables);
      for k := 0 to |schema.links|
        invariant Valid() && tables == ClearLinks(schema.links[..k], m, old(tables))
        invariant Connects(ClearSteps(schema, m), trace, old(tables), tables)
        invariant NoDangling(schema, old(tables)) ==> AllSound(schema, trace)
      {
        assert schema.links[..k + 1] == schema.links[..k] + [schema.links[k]];
        ClearOneMore(schema.links[..k], schema.links[k], m, old(tables));
        trace := ClearLink(m, schema.links[k], old(tables), trace);
      }
      assert schema.links[..|schema.links|] == schema.links;
    }

    /** The update statement of one foreign key, if there is anything to update. */
    method ClearLink(m: Marks, l: Link, ghost start: Database, ghost trace0: seq<Database>) returns (ghost trace: seq<Database>)
      requires Valid() && l in schema.links && Connects(ClearSteps(schema, m), trace0, start, tables)
      requires NoDangling(schema, start) ==> AllSound(schema, trace0)
      modifies this
      ensures Valid() && tables == ClearLinks([l], m, old(tables))
      ensures Connects(ClearSteps(schema, m), trace, start, tables)
      ensures NoDangling(schema, start) ==> AllSound(schema, trace)
    {
      var own, targets := Ids(m, l.table), Ids(m, l.target);
      trace := trace0;
      ghost var before := tables;
      if l.nullable && own != {} && targets != {} {
        tables := tables[l.table := map i | i in tables[l.table] :: Unlinked(i in own, l.column, targets, tables[l.table][i])];
        StatementClearsLink(l, m, before, tables);
        assert ClearsOneLink(schema, m, before, tables);
        ConnectsMore(ClearSteps(schema, m), trace0, start, before, tables);
        if NoDangling(schema, start) {
          assert before in trace0;
          ClearKeepsNoDangling(schema, [l], m, before);
          AllSoundMore(schema, trace0, tables);
        }
        trace := trace0 + [tables];
      } else {
        StatementClearsLink(l, m, before, tables);
      }
    }

    /** Deletes one pending table unless a pending row refers to its marked rows. */
    method DeleteIfUnblocked(ghost d: Database, ghost m: Marks, pending0: Marks, ghost rank0: map<TableName, nat>, name: TableName)
        returns (deleted: bool, pending: Marks, ghost rank: map<TableName, nat>)
      requires Deleted(schema, d, m, tables, pending0, rank0) && name in pending0
      modifies this
      ensures Deleted(schema, d, m, tables, pending, rank)
      ensures NoDangling(schema, old(tables)) ==> NoDangling(schema, tables)
      ensures deleted <==> !HasPredecessor(HardGraph(schema, d, m), pending0.Keys, name)
      ensures deleted ==> pending == pending0 - {name} && |pending| < |pending0|
      ensures if deleted then DeletesOneTable(m, old(tables), tables) else pending == pending0 && tables == old(tables)
    {
      pending, rank, deleted := pending0, rank0, false;
      BlockedIffPredecessor(schema, d, m, tables, pending, rank.Keys, name);
      if !IsBlocked(schema.links, tables, name, pending) {
        StepDeleting(schema, d, m, tables, pending, rank, name);
        if NoDangling(schema, tables) {
          StepSound(schema, d, m, tables, pending, rank, name);
        }
        tables := tables[name := tables[name] - pending[name]];
        pending, rank, deleted := pending - {name}, rank[name := |rank|], true;
      }
    }

    /** One pass over the tables that are pending at its start. */
    method DeletePass(ghost d: Database, ghost m: Marks, pending0: Marks, ghost rank0: map<TableName, nat>)
        returns (progress: bool, pending: Marks, ghost rank: map<TableName, nat>, ghost trace: seq<Database>)
      requires Deleted(schema, d, m, tables, pending0, rank0)
      modifies this
      ensures Deleted(schema, d, m, tables, pending, rank)
      ensures progress ==> |pending| < |pending0|
      ensures progress <==> !AllBlocked(HardGraph(schema, d, m), pending0.Keys, pending0.Keys)
      ensures Connects(DeleteSteps(m), trace, old(tables), tables)
      ensures NoDangling(schema, old(tables)) ==> AllSound(schema, trace)
    {
      progress, pending, rank, trace := false, pending0, rank0, [tables];
      var todo := pending.Keys;
      while todo != {}
        invariant Deleted(schema, d, m, tables, pending, rank) && todo <= pending.Keys <= pending0.Keys
        invariant if progress then |pending| < |pending0| else pending == pending0
        invariant progress <==> !AllBlocked(HardGraph(schema, d, m), pending0.Keys, pending0.Keys - todo)
        invariant Connects(DeleteSteps(m), trace, old(tables), tables)
        invariant NoDangling(schema, old(tables)) ==> AllSound(schema, trace)
      {
        var name :| name in todo;
        var deleted;
        ghost var before := tables;
        deleted, pending, rank := DeleteIfUnblocked(d, m, pending, rank, name);
        OneMoreBlocked(HardGraph(schema, d, m), pending0.Keys, todo, name);
        progress := progress || deleted;
        trace := DeletedMore(schema, m, trace, old(tables), before, tables);
        todo := todo - {name};
      }
    }

    /** Deletes the marked rows, a table at a time, as soon as no pending row refers to the table's marked rows. */
    method DeleteTables(ghost d: Database, m: Marks) returns (ok: bool, ghost trace: seq<Database>)
      requires ValidSchema(schema) && d.Keys == schema.tables && m.Keys <= schema.tables && Closed(schema, d, m)
      requires tables == ClearLinks(schema.links, m, d)
      modifies this
      ensures tables.Keys == schema.tables && (ok <==> Acyclic(HardGraph(schema, d, m)))
      ensures ok ==> tables == Without(d, m, d.Keys)
      ensures Connects(DeleteSteps(m), trace, old(tables), tables)
      ensures NoDangling(schema, d) ==> AllSound(schema, trace)
    {
      var pending := Nonempty(m);
      ghost var rank: map<TableName, nat> := map[];
      trace := [tables];
      StartDeleting(schema, d, m);
      while pending != map[]
        invariant Deleted(schema, d, m, tables, pending, rank)
        invariant Connects(DeleteSteps(m), trace, old(tables), tables)
        invariant NoDangling(schema, d) ==> AllSound(schema, trace)
        decreases |pending|
      {
        ghost var names, before := pending.Keys, tables;
        assert NoDangling(schema, d) ==> NoDangling(schema, before) by {
          assert before in trace;
        }
        var progress;
        ghost var steps;
        progress, pending, rank, steps := DeletePass(d, m, pending, rank);
        PassAppended(schema, m, d, trace, steps, old(tables), before, tables);
        trace := trace + steps[1..];
        if !progress {
          NoProgressMeansCycle(HardGraph(schema, d, m), names);
          return false, trace;
        }
      }
      EndDeleting(schema, d, m, tables, rank);
      ok := true;
    }

    /** Makes the marked rows deletable and deletes them, statement by statement. */
    method ClearAndDelete(m: Marks) returns (ok: bool, ghost trace: seq<Database>)
      requires Valid() && m.Keys <= schema.tables && Closed(schema, tables, m)
      modifies this
      ensures Valid() && (ok <==> Acyclic(HardGraph(schema, old(tables), m)))
      ensures ok ==> tables == Without(old(tables), m, old(tables).Keys)
      ensures Connects(ResetSteps(schema, m), trace, old(tables), tables)
      ensures NoDangling(schema, old(tables)) ==> AllSound(schema, trace)
    {
      ghost var d := tables;
      ghost var clearing := ClearNullableLinks(m);
      ghost var cleared := tables;
      ghost var deleting;
      ok, deleting := DeleteTables(d, m);
      StatementsInOrder(schema, m, clearing, deleting, d, cleared, tables);
      trace := clearing + deleting[1..];
    }

    /** Deletes the registered rows that nothing outside holds on to, and the manifest. */
    method ResetOwned() returns (r: Result<map<TableName, nat>>, ghost trace: seq<Database>)
      requires Valid()
      modifies this
      ensures Valid() && (r.Ok? <==> ResetSucceeds(schema, old(tables), legacy))
      ensures r.Ok? ==> tables == AfterReset(schema, old(tables), legacy)
      ensures r.Ok? ==> r.value == ProtectedCounts(Candidates(old(tables), legacy), FinalMarks(schema, old(tables), legacy))
      ensures r == Err(UnknownTable) ==> tables == old(tables)
      ensures ResetRun(schema, old(tables), FinalMarks(schema, old(tables), legacy), trace, r.Ok?, tables)
      ensures NoDangling(schema, old(tables)) && (forall l | l in schema.links :: l.target != AUDIT) ==> NoDangling(schema, tables)
    {
      trace := [tables];
      var hasManifest := MANIFEST_ID in tables[AUDIT];
      var collected := CollectCandidates();
      if collected.Err? {
        NothingRun(schema, tables, FinalMarks(schema, tables, legacy));
        return Err(UnknownTable), trace;
      }
      var original := collected.value;
      var candidates := Protect(original);
      ghost var d := tables;
      FinalMarksFacts(schema, d, legacy);
      var ok;
      ok, trace := ClearAndDelete(candidates);
      if !ok {
        return Err(ReferenceCycle), trace;
      }
      ghost var last := tables;
      if hasManifest {
        tables := tables[AUDIT := tables[AUDIT] - {MANIFEST_ID}];
      }
      ManifestGone(d, candidates, tables);
      ResetDone(schema, d, candidates, trace, last);
      r := Ok(ProtectedCounts(original, candidates));
    }

    /** The seeding command runs the reset in a transaction: an error rolls everything back. */
    method ResetInTransaction() returns (r: Result<map<TableName, nat>>)
      requires Valid()
      modifies this
      ensures Valid() && (r.Ok? <==> ResetSucceeds(schema, old(tables), legacy))
      ensures tables == if r.Ok? then AfterReset(schema, old(tables), legacy) else old(tables)
    {
      var saved := tables;
      ghost var trace;
      r, trace := ResetOwned();
      if r.Err? {
        tables := saved;
      }
    }
  }

  ghost function Nodes(m: Marks): set<Node> {
    set t, i | t in m && i in m[t] :: Node(t, i)
  }

  lemma FinalMarksFacts(s: Schema, d: Database, legacy: map<TableName, seq<Id>>)
    requires AllKnown(s, d, legacy)
    ensures FinalMarks(s, d, legacy).Keys <= s.tables
    ensures Closed(s, d, FinalMarks(s, d, legacy))
  {
    DeletableIsGreatestClosed(s, d, Candidates(d, legacy));
  }

  lemma ManifestGone(d: Database, m: Marks, after: Database)
    requires AUDIT in d
    requires var without := Without(d, m, d.Keys);
             after == if MANIFEST_ID in d[AUDIT] then without[AUDIT := without[AUDIT] - {MANIFEST_ID}] else without
    ensures after == WithoutManifest(Without(d, m, d.Keys))
  {
    var without := Without(d, m, d.Keys);
    if MANIFEST_ID !in d[AUDIT] {
      assert without[AUDIT] - {MANIFEST_ID} == without[AUDIT];
    }
  }

  function Unlinked(own: bool, column: Column, targets: set<Id>, row: Row): Row {
    if own && column in row && row[column].Uuid? && row[column].id in targets then row[column := Null] else row
  }

  lemma StatementClearsLink(l: Link, m: Marks, before: Database, after: Database)
    requires l.table in before
    requires after == if l.nullable && Ids(m, l.table) != {} && Ids(m, l.target) != {}
                      then before[l.table := map i | i in before[l.table] ::
                             Unlinked(i in Ids(m, l.table), l.column, Ids(m, l.target), before[l.table][i])]
                      else before
    ensures after == ClearLinks([l], m, before)
  {
    var cleared := ClearLinks([l], m, before);
    forall t, i | t in before && i in before[t] ensures after[t][i] == cleared[t][i] {
      assert after[t][i] == if i in Ids(m, t) then ClearedRow([l], m, t, before[t][i]) else before[t][i];
    }
    forall t | t in before ensures after[t] == cleared[t] {}
  }
}
