/** What a reset guarantees, in terms of the columns of single rows. */
module SeedGuarantees {
  import opened SeedModel
  import opened SeedReset
  import opened SeedRoundTrip

  /** The manifest, the audit row 0, or the legacy inventory lists the row. */
  predicate Listing(d: Database, legacy: map<TableName, seq<Id>>, t: TableName, i: Id) {
    || (t in legacy && i in legacy[t])
    || ("audit_logs" in d && 0 in d["audit_logs"] && "after_value" in d["audit_logs"][0]
        && d["audit_logs"][0]["after_value"].Records?
        && t in d["audit_logs"][0]["after_value"].byTable && i in d["audit_logs"][0]["after_value"].byTable[t])
  }

  /** An audit row other than the manifest that nothing lists. */
  predicate OutsideAuditRow(d: Database, legacy: map<TableName, seq<Id>>, r: Id) {
    "audit_logs" in d && r in d["audit_logs"] && r != 0 && !Listing(d, legacy, "audit_logs", r)
  }

  /** The row of `before` is there unchanged. */
  predicate Survives(before: Database, after: Database, t: TableName, i: Id)
    requires t in before && i in before[t]
  {
    t in after && i in after[t] && after[t][i] == before[t][i]
  }

  lemma ListingIsOwned(d: Database, legacy: map<TableName, seq<Id>>, t: TableName, i: Id)
    ensures Listing(d, legacy, t, i) <==> i in Owned(Registered(d), legacy, t)
    ensures Marked(Candidates(d, legacy), Node(t, i)) <==> Listing(d, legacy, t, i) && Exists(d, Node(t, i))
  {}

  /** A reference from a row that nothing lists, or from the other rows that survive, keeps its target. */
  lemma ReferencedSurvives(s: Schema, d: Database, legacy: map<TableName, seq<Id>>, p: Node, q: Node)
    requires References(s, d, p, q) && Exists(d, q) && q != Node("audit_logs", 0)
    requires !Marked(FinalMarks(s, d, legacy), p)
    ensures Survives(d, AfterReset(s, d, legacy), q.table, q.id)
  {
    DeletableIsGreatestClosed(s, d, Candidates(d, legacy));
    AfterResetRow(s, d, legacy, q);
  }

  lemma OutsideIsUnmarked(s: Schema, d: Database, legacy: map<TableName, seq<Id>>, p: Node)
    requires !Listing(d, legacy, p.table, p.id)
    ensures !Marked(FinalMarks(s, d, legacy), p)
  {
    DeletableMarks(s, d, Candidates(d, legacy), p);
    ListingIsOwned(d, legacy, p.table, p.id);
  }

  /** An event that an outside audit row names as its entity survives. */
  lemma NamedEventSurvives(s: Schema, d: Database, legacy: map<TableName, seq<Id>>, r: Id, e: Id)
    requires OutsideAuditRow(d, legacy, r) && "events" in d && e in d["events"]
    requires var row := d["audit_logs"][r]; "entity_type" in row && "entity_id" in row
    requires var row := d["audit_logs"][r]; row["entity_type"] == Text("event") && row["entity_id"] == Uuid(e)
    ensures Survives(d, AfterReset(s, d, legacy), "events", e)
  {
    assert AUDIT_RULES[2] in AUDIT_RULES && AuditEdge(d, AUDIT_RULES[2], Node("audit_logs", r), Node("events", e));
    OutsideIsUnmarked(s, d, legacy, Node("audit_logs", r));
    ReferencedSurvives(s, d, legacy, Node("audit_logs", r), Node("events", e));
  }

  /** So does a user that it names as its entity. */
  lemma NamedUserSurvives(s: Schema, d: Database, legacy: map<TableName, seq<Id>>, r: Id, u: Id)
    requires OutsideAuditRow(d, legacy, r) && "users" in d && u in d["users"]
    requires var row := d["audit_logs"][r]; "entity_type" in row && "entity_id" in row
    requires var row := d["audit_logs"][r]; row["entity_type"] == Text("user") && row["entity_id"] == Uuid(u)
    ensures Survives(d, AfterReset(s, d, legacy), "users", u)
  {
    assert AUDIT_RULES[1] in AUDIT_RULES && AuditEdge(d, AUDIT_RULES[1], Node("audit_logs", r), Node("users", u));
    OutsideIsUnmarked(s, d, legacy, Node("audit_logs", r));
    ReferencedSurvives(s, d, legacy, Node("audit_logs", r), Node("users", u));
  }

  /** So does a user that is its actor, whatever its entity. */
  lemma ActorSurvives(s: Schema, d: Database, legacy: map<TableName, seq<Id>>, r: Id, u: Id)
    requires OutsideAuditRow(d, legacy, r) && "users" in d && u in d["users"]
    requires "actor_user_id" in d["audit_logs"][r] && d["audit_logs"][r]["actor_user_id"] == Uuid(u)
    ensures Survives(d, AfterReset(s, d, legacy), "users", u)
  {
    assert AUDIT_RULES[0] in AUDIT_RULES && AuditEdge(d, AUDIT_RULES[0], Node("audit_logs", r), Node("users", u));
    OutsideIsUnmarked(s, d, legacy, Node("audit_logs", r));
    ReferencedSurvives(s, d, legacy, Node("audit_logs", r), Node("users", u));
  }

  /** So does a row that a row nothing lists holds through a foreign key, nullable or not. */
  lemma HeldSurvives(s: Schema, d: Database, legacy: map<TableName, seq<Id>>, l: Link, r: Id, i: Id)
    requires l in s.links && l.table in d && r in d[l.table] && !Listing(d, legacy, l.table, r)
    requires l.column in d[l.table][r] && d[l.table][r][l.column] == Uuid(i)
    requires l.target in d && i in d[l.target] && !(l.target == "audit_logs" && i == 0)
    ensures Survives(d, AfterReset(s, d, legacy), l.target, i)
  {
    assert LinkEdge(d, l, Node(l.table, r), Node(l.target, i));
    OutsideIsUnmarked(s, d, legacy, Node(l.table, r));
    ReferencedSurvives(s, d, legacy, Node(l.table, r), Node(l.target, i));
  }

  /** The audit row names the row as its actor or entity. */
  predicate NamedBy(row: Row, t: TableName, i: Id) {
    || (t == "users" && "actor_user_id" in row && row["actor_user_id"] == Uuid(i))
    || (t == "users" && "entity_type" in row && row["entity_type"] == Text("user") && "entity_id" in row && row["entity_id"] == Uuid(i))
    || (t == "events" && "entity_type" in row && row["entity_type"] == Text("event") && "entity_id" in row && row["entity_id"] == Uuid(i))
  }

  lemma AuditEdgeNames(d: Database, rule: AuditRule, p: Node, q: Node)
    requires rule in AUDIT_RULES && AuditEdge(d, rule, p, q)
    ensures p.table == "audit_logs" && p.id != 0 && Exists(d, p) && NamedBy(d["audit_logs"][p.id], q.table, q.id)
  {}

  lemma OnlyAuditRowsRefer(s: Schema, d: Database, p: Node, q: Node)
    requires s.links == []
    ensures References(s, d, p, q) ==> p.table == "audit_logs" && q.table != "audit_logs"
  {}

  /** Without foreign keys a chain of references is one audit row naming one user or event. */
  lemma ChainIsNaming(s: Schema, d: Database, legacy: map<TableName, seq<Id>>, path: seq<Node>, q: Node)
    requires s.links == [] && IsChain(s, d, Candidates(d, legacy), path, q) && Exists(d, q)
    ensures exists r :: OutsideAuditRow(d, legacy, r) && NamedBy(d["audit_logs"][r], q.table, q.id)
  {
    if |path| > 2 {
      assert References(s, d, path[1], path[1 + 1]);
      OnlyAuditRowsRefer(s, d, path[1], path[2]);
    }
    assert References(s, d, path[0], path[0 + 1]);
    var rule :| rule in AUDIT_RULES && AuditEdge(d, rule, path[0], path[1]);
    AuditEdgeNames(d, rule, path[0], path[1]);
    ListingIsOwned(d, legacy, "audit_logs", path[0].id);
    assert OutsideAuditRow(d, legacy, path[0].id);
  }

  /** Without foreign keys a successful reset deletes a listed row exactly when no outside audit row names it. */
  lemma UnnamedIsGone(s: Schema, d: Database, legacy: map<TableName, seq<Id>>, t: TableName, i: Id)
    requires s.links == [] && t in d && i in d[t] && Listing(d, legacy, t, i) && !(t == "audit_logs" && i == 0)
    ensures (exists r :: OutsideAuditRow(d, legacy, r) && NamedBy(d["audit_logs"][r], t, i))
            <==> t in AfterReset(s, d, legacy) && i in AfterReset(s, d, legacy)[t]
  {
    var q := Node(t, i);
    AfterResetRow(s, d, legacy, q);
    DeletableMarks(s, d, Candidates(d, legacy), q);
    ListingIsOwned(d, legacy, t, i);
    if Reached(s, d, Candidates(d, legacy), q) {
      var path :| IsChain(s, d, Candidates(d, legacy), path, q);
      ChainIsNaming(s, d, legacy, path, q);
    }
    if r :| OutsideAuditRow(d, legacy, r) && NamedBy(d["audit_logs"][r], t, i) {
      if t == "events" {
        NamedEventSurvives(s, d, legacy, r, i);
      } else if "actor_user_id" in d["audit_logs"][r] && d["audit_logs"][r]["actor_user_id"] == Uuid(i) {
        ActorSurvives(s, d, legacy, r, i);
      } else {
        NamedUserSurvives(s, d, legacy, r, i);
      }
    }
  }

  /** A row that nothing lists, other than the manifest, survives. */
  lemma UnlistedSurvives(s: Schema, d: Database, legacy: map<TableName, seq<Id>>, t: TableName, i: Id)
    requires t in d && i in d[t] && !Listing(d, legacy, t, i) && !(t == "audit_logs" && i == 0)
    ensures Survives(d, AfterReset(s, d, legacy), t, i)
  {
    OutsideIsUnmarked(s, d, legacy, Node(t, i));
    AfterResetRow(s, d, legacy, Node(t, i));
  }

  /** The listed rows of a table that are still there after the reset. */
  ghost function Protected(s: Schema, d: Database, legacy: map<TableName, seq<Id>>, t: TableName): set<Id> {
    set i | t in d && i in d[t] && Listing(d, legacy, t, i) && t in AfterReset(s, d, legacy) && i in AfterReset(s, d, legacy)[t]
  }

  /** The reset reports, for each table with protected rows, how many there are. */
  lemma CountsMean(s: Schema, d: Database, legacy: map<TableName, seq<Id>>, t: TableName)
    requires t == "audit_logs" ==> !Listing(d, legacy, t, 0)
    ensures var counts := ProtectedCounts(Candidates(d, legacy), FinalMarks(s, d, legacy));
      && (t in counts <==> Protected(s, d, legacy, t) != {})
      && (t in counts ==> counts[t] == |Protected(s, d, legacy, t)|)
  {
    var original, kept := Candidates(d, legacy), FinalMarks(s, d, legacy);
    forall i ensures i in Ids(original, t) - Ids(kept, t) <==> i in Protected(s, d, legacy, t) {
      ListingIsOwned(d, legacy, t, i);
      AfterResetRow(s, d, legacy, Node(t, i));
      DeletableMarks(s, d, original, Node(t, i));
    }
    assert Ids(original, t) - Ids(kept, t) == Protected(s, d, legacy, t);
  }

  /* ---- The manifest and the check ---- */

  predicate Increasing(ids: seq<Id>) {
    forall j, k | 0 <= j < k < |ids| :: ids[j] < ids[k]
  }

  lemma SavedManifest(d: Database, records: map<TableName, seq<Id>>) returns (row: Row)
    requires "audit_logs" in d
    ensures "audit_logs" in Saved(d, records) && 0 in Saved(d, records)["audit_logs"] && row == Saved(d, records)["audit_logs"][0]
    ensures "after_value" in row && row["after_value"] == Records(Merged(Registered(d), records))
    ensures row - {"after_value"} == (if 0 in d["audit_logs"] then d["audit_logs"][0] else FRESH_MANIFEST) - {"after_value"}
  {
    var was := if 0 in d["audit_logs"] then d["audit_logs"][0] else FRESH_MANIFEST;
    row := was["after_value" := Records(Merged(Registered(d), records))];
    InsertedRows(d, AUDIT, MANIFEST_ID, row);
  }

  /** Saving lists every id recorded before or now, in order. */
  lemma SavedLists(d: Database, records: map<TableName, seq<Id>>, t: TableName, i: Id) returns (lists: map<TableName, seq<Id>>)
    requires "audit_logs" in d
    ensures "audit_logs" in Saved(d, records) && 0 in Saved(d, records)["audit_logs"]
    ensures "after_value" in Saved(d, records)["audit_logs"][0]
    ensures Saved(d, records)["audit_logs"][0]["after_value"] == Records(lists)
    ensures t in lists ==> Increasing(lists[t])
    ensures t in lists && i in lists[t] <==>
            (t in records && i in records[t]) || (t in Registered(d) && i in Registered(d)[t])
  {
    var row := SavedManifest(d, records);
    lists := Merged(Registered(d), records);
  }

  predicate SaysSeeded(row: Row) {
    row == map["entity_type" := Text("seed_dataset"), "entity_id" := Uuid(0), "action" := Text("go360_seed")]
  }

  /** A new manifest says what it is, an old one keeps its other columns. */
  lemma SavedColumns(d: Database, records: map<TableName, seq<Id>>) returns (row: Row)
    requires "audit_logs" in d
    ensures "audit_logs" in Saved(d, records) && 0 in Saved(d, records)["audit_logs"] && row == Saved(d, records)["audit_logs"][0]
    ensures 0 in d["audit_logs"] ==> row - {"after_value"} == d["audit_logs"][0] - {"after_value"}
    ensures 0 !in d["audit_logs"] ==> SaysSeeded(row - {"after_value"})
  {
    row := SavedManifest(d, records);
  }

  /** No other row changes. */
  lemma SavedKeepsRows(d: Database, records: map<TableName, seq<Id>>, t: TableName, i: Id)
    requires "audit_logs" in d && !(t == "audit_logs" && i == 0)
    ensures var after := Saved(d, records);
      (t in d && i in d[t] <==> t in after && i in after[t]) && (t in d && i in d[t] ==> after[t][i] == d[t][i])
  {
    var row := SavedManifest(d, records);
    InsertedRows(d, AUDIT, MANIFEST_ID, row);
    assert Exists(d, Node(t, i)) <==> Exists(Saved(d, records), Node(t, i));
  }

  /** A refresh may change the name and the update time of a category, and nothing else of any row. */
  lemma PreservedMeans(d: Database, baseline: Database, allowLabels: bool, t: TableName, i: Id)
    requires t in baseline && i in baseline[t]
    ensures RowPreserved(d, baseline, allowLabels, Node(t, i)) <==>
      t in d && i in d[t] && forall c | c in baseline[t][i] ::
        (c in d[t][i] && d[t][i][c] == baseline[t][i][c])
        || (allowLabels && (t == "main_categories" || t == "sub_categories") && (c == "name" || c == "updated_at"))
  {}
}
