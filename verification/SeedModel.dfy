/** The relational database that the demo-data seeder works on, and the references between its rows.

    A schema is a set of table names and one Link for every declared foreign key: the nested loop over
    tables and their foreign keys is one loop over links. Audit rows refer to users and events
    through plain UUID columns, so their references are described by AuditRules instead. */
module SeedModel {
  type TableName = string
  type Column = string
  type Id = nat

  datatype Value =
    | Null
    | Uuid(id: Id)
    | Text(text: string)
    | Stamp(time: int)
    | Records(byTable: map<TableName, seq<Id>>)

  type Row = map<Column, Value>
  type Database = map<TableName, map<Id, Row>>

  datatype Link = Link(table: TableName, column: Column, target: TableName, nullable: bool)
  datatype Schema = Schema(tables: set<TableName>, links: seq<Link>)
  datatype AuditRule = AuditRule(target: TableName, column: Column, entityType: string)

  /** The ids of a set of rows, table by table: the seeder's `candidates` and `pending` dictionaries. */
  type Marks = map<TableName, set<Id>>
  datatype Node = Node(table: TableName, id: Id)

  const AUDIT: TableName := "audit_logs"
  const MANIFEST_ID: Id := 0
  const ANY_ENTITY := ""
  const AUDIT_RULES: seq<AuditRule> := [
    AuditRule("users", "actor_user_id", ANY_ENTITY),
    AuditRule("users", "entity_id", "user"),
    AuditRule("events", "entity_id", "event")]

  function Rows(d: Database, t: TableName): map<Id, Row> {
    if t in d then d[t] else map[]
  }

  function Ids(m: Marks, t: TableName): set<Id> {
    if t in m then m[t] else {}
  }

  predicate Exists(d: Database, n: Node) {
    n.id in Rows(d, n.table)
  }

  predicate Marked(m: Marks, n: Node) {
    n.id in Ids(m, n.table)
  }

  predicate Points(row: Row, column: Column, id: Id) {
    column in row && row[column] == Uuid(id)
  }

  predicate RuleApplies(row: Row, rule: AuditRule) {
    rule.entityType == ANY_ENTITY || ("entity_type" in row && row["entity_type"] == Text(rule.entityType))
  }

  /** Tables of the schema are the tables of the database; nullability belongs to the column. */
  ghost predicate ValidSchema(s: Schema) {
    && AUDIT in s.tables
    && (forall l | l in s.links :: l.table in s.tables && l.target in s.tables)
    && (forall l, m | l in s.links && m in s.links && l.table == m.table && l.column == m.column
          :: l.nullable == m.nullable)
  }

  ghost predicate LinkEdge(d: Database, l: Link, p: Node, q: Node) {
    Exists(d, p) && p.table == l.table && q.table == l.target && Points(d[p.table][p.id], l.column, q.id)
  }

  ghost predicate AuditEdge(d: Database, rule: AuditRule, p: Node, q: Node) {
    && Exists(d, p) && p.table == AUDIT && p.id != MANIFEST_ID
    && q.table == rule.target
    && RuleApplies(d[AUDIT][p.id], rule) && Points(d[AUDIT][p.id], rule.column, q.id)
  }

  /** Row p refers to q: by a foreign key, or as an audit row other than the manifest. */
  ghost predicate References(s: Schema, d: Database, p: Node, q: Node) {
    || (exists l :: l in s.links && LinkEdge(d, l, p, q))
    || (exists rule :: rule in AUDIT_RULES && AuditEdge(d, rule, p, q))
  }

  /** No row outside m refers to a row inside m. */
  ghost predicate Closed(s: Schema, d: Database, m: Marks) {
    forall p, q | References(s, d, p, q) && Marked(m, q) :: Marked(m, p)
  }

  ghost predicate Within(m: Marks, n: Marks) {
    forall q | Marked(m, q) :: Marked(n, q)
  }

  ghost predicate IsChain(s: Schema, d: Database, original: Marks, path: seq<Node>, q: Node) {
    && |path| >= 2 && !Marked(original, path[0]) && path[|path| - 1] == q
    && forall k | 0 <= k < |path| - 1 :: References(s, d, path[k], path[k + 1])
  }

  /** A chain of references leads to q from a row that was not in the original set. */
  ghost predicate Reached(s: Schema, d: Database, original: Marks, q: Node) {
    exists path :: IsChain(s, d, original, path, q)
  }

  /** The rows of the original set that no outside row holds on to, directly or transitively. */
  ghost function Deletable(s: Schema, d: Database, original: Marks): Marks {
    map t | t in original :: set i | i in original[t] && !Reached(s, d, original, Node(t, i))
  }

  /** Every foreign key that is set points to an existing row. */
  ghost predicate NoDangling(s: Schema, d: Database) {
    forall l, p, q | l in s.links && LinkEdge(d, l, p, q) :: Exists(d, q)
  }

  lemma DeletableMarks(s: Schema, d: Database, original: Marks, q: Node)
    ensures Marked(Deletable(s, d, original), q) <==> Marked(original, q) && !Reached(s, d, original, q)
  {}

  /** A reference from outside the original set, or from a reached row, reaches its target. */
  lemma ReachedByReference(s: Schema, d: Database, original: Marks, p: Node, q: Node)
    requires References(s, d, p, q)
    requires !Marked(original, p) || Reached(s, d, original, p)
    ensures Reached(s, d, original, q)
  {
    if !Marked(original, p) {
      assert IsChain(s, d, original, [p, q], q);
    } else {
      var path :| IsChain(s, d, original, path, p);
      assert IsChain(s, d, original, path + [q], q);
    }
  }

  /** A closed subset of the original set contains no row of any chain. */
  lemma {:induction false} ChainAvoidsClosed(s: Schema, d: Database, original: Marks, m: Marks, path: seq<Node>, k: nat)
    requires Closed(s, d, m) && Within(m, original)
    requires |path| >= 2 && !Marked(original, path[0]) && k < |path|
    requires forall j | 0 <= j < |path| - 1 :: References(s, d, path[j], path[j + 1])
    ensures !Marked(m, path[k])
  {
    if k > 0 {
      ChainAvoidsClosed(s, d, original, m, path, k - 1);
      assert References(s, d, path[k - 1], path[(k - 1) + 1]);
    }
  }

  /** The deletable rows are the greatest subset of the original rows that nothing outside refers to. */
  lemma DeletableIsGreatestClosed(s: Schema, d: Database, original: Marks)
    ensures Within(Deletable(s, d, original), original)
    ensures Closed(s, d, Deletable(s, d, original))
    ensures forall m | Within(m, original) && Closed(s, d, m) :: Within(m, Deletable(s, d, original))
  {
    var best := Deletable(s, d, original);
    forall p, q | References(s, d, p, q) && Marked(best, q) ensures Marked(best, p) {
      DeletableMarks(s, d, original, p);
      DeletableMarks(s, d, original, q);
      if !Marked(best, p) {
        ReachedByReference(s, d, original, p, q);
      }
    }
    forall m, q | Within(m, original) && Closed(s, d, m) && Marked(m, q) ensures Marked(best, q) {
      DeletableMarks(s, d, original, q);
      if Reached(s, d, original, q) {
        var path :| IsChain(s, d, original, path, q);
        ChainAvoidsClosed(s, d, original, m, path, |path| - 1);
      }
    }
  }

  /** When nothing outside refers to the original rows, all of them are deletable. */
  lemma ClosedIsDeletable(s: Schema, d: Database, original: Marks)
    requires Closed(s, d, original)
    ensures Deletable(s, d, original) == original
  {
    DeletableIsGreatestClosed(s, d, original);
    var best := Deletable(s, d, original);
    assert Within(original, original);
    forall t | t in original ensures best[t] == original[t] {
      forall i ensures i in best[t] <==> i in original[t] {
        assert Marked(original, Node(t, i)) ==> Marked(best, Node(t, i));
      }
    }
  }
}
