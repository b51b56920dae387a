/** Adding seed rows, recording them in the manifest, and checking that other rows survive. */
module SeedRoundTrip {
  import opened SeedModel
  import opened Digraph
  import opened SeedReset

  /** A row to seed, with the id derived from its table and key. */
  datatype Seed = Seed(table: TableName, id: Id, values: Row)
  datatype Added = Existing(row: Row) | Created(row: Row) | ForeignKeyViolation
  datatype Preservation = Intact | Deleted(node: Node) | Changed(node: Node, column: Column)

  /* ---- Specification of adding and saving ---- */

  function Insert(d: Database, t: TableName, i: Id, row: Row): Database
    requires t in d
  {
    var one: map<Id, Row> := map[i := row];
    d[t := d[t] + one]
  }

  function AddOne(d: Database, seed: Seed): Database {
    if seed.table !in d || seed.id in d[seed.table] then d
    else Insert(d, seed.table, seed.id, seed.values)
  }

  function AddAll(d: Database, seeds: seq<Seed>): Database {
    if seeds == [] then d else AddOne(AddAll(d, seeds[..|seeds| - 1]), seeds[|seeds| - 1])
  }

  /** records.setdefault(table, []).append(id) */
  function Record(records: map<TableName, seq<Id>>, seed: Seed): map<TableName, seq<Id>> {
    records[seed.table := (if seed.table in records then records[seed.table] else []) + [seed.id]]
  }

  function RecordAll(seeds: seq<Seed>): map<TableName, seq<Id>> {
    if seeds == [] then map[] else Record(RecordAll(seeds[..|seeds| - 1]), seeds[|seeds| - 1])
  }

  predicate IsMinimum(s: set<Id>, m: Id) {
    m in s && forall x | x in s :: m <= x
  }

  lemma MinimumExists(s: set<Id>) returns (m: Id)
    requires s != {}
    ensures IsMinimum(s, m)
  {
    m :| m in s;
    if y :| y in s && y < m {
      assert y in s - {m};
      var rest := MinimumExists(s - {m});
      assert forall x | x in s :: x == m || x in s - {m};
      m := rest;
    }
  }

  function SortedIds(s: set<Id>): (r: seq<Id>)
    ensures forall i :: i in r <==> i in s
    ensures forall j, k | 0 <= j < k < |r| :: r[j] < r[k]
    decreases s
  {
    if s == {} then []
    else
      assert exists m :: IsMinimum(s, m) by { var m := MinimumExists(s); }
      var m :| IsMinimum(s, m);
      [m] + SortedIds(s - {m})
  }

  function Merged(prior: map<TableName, seq<Id>>, records: map<TableName, seq<Id>>): map<TableName, seq<Id>> {
    map t | t in prior.Keys + records.Keys :: SortedIds(Owned(prior, records, t))
  }

  const FRESH_MANIFEST: Row := map[
    "entity_type" := Text("seed_dataset"), "entity_id" := Uuid(MANIFEST_ID), "action" := Text("go360_seed")]

  function Saved(d: Database, records: map<TableName, seq<Id>>): Database
    requires AUDIT in d
  {
    var row := if MANIFEST_ID in d[AUDIT] then d[AUDIT][MANIFEST_ID] else FRESH_MANIFEST;
    Insert(d, AUDIT, MANIFEST_ID, row["after_value" := Records(Merged(Registered(d), records))])
  }

  /** The foreign keys of the row resolve once it is inserted (a row may refer to itself). */
  predicate Resolves(s: Schema, d: Database, seed: Seed) {
    forall l | l in s.links && l.table == seed.table && l.column in seed.values && seed.values[l.column].Uuid? ::
      var i := seed.values[l.column].id;
      i in Rows(d, l.target) || (l.target == seed.table && i == seed.id)
  }

  /** Some foreign key of the row holds an id that neither exists in its target nor is the row's own. */
  ghost predicate Unresolved(s: Schema, d: Database, table: TableName, id: Id, values: Row) {
    exists l, i :: l in s.links && l.table == table && l.column in values && values[l.column] == Uuid(i)
      && !(l.target in d && i in d[l.target]) && (l.target != table || i != id)
  }

  predicate IsSeed(seeds: seq<Seed>, q: Node) {
    exists seed :: seed in seeds && Node(seed.table, seed.id) == q
  }

  ghost predicate Fresh(s: Schema, d: Database, seeds: seq<Seed>) {
    forall seed | seed in seeds :: seed.table in s.tables && seed.id !in Rows(d, seed.table) && seed.id != MANIFEST_ID
  }

  /** Some audit row of d names a seeded user or event. */
  ghost predicate AuditNames(d: Database, seeds: seq<Seed>) {
    exists rule, p, q :: rule in AUDIT_RULES && AuditEdge(d, rule, p, q) && IsSeed(seeds, q)
  }

  lemma {:induction false} AddAllRows(d: Database, seeds: seq<Seed>)
    requires forall seed | seed in seeds :: seed.table in d
    ensures AddAll(d, seeds).Keys == d.Keys
    ensures forall q :: Exists(AddAll(d, seeds), q) <==> Exists(d, q) || IsSeed(seeds, q)
    ensures forall q | Exists(d, q) :: Exists(AddAll(d, seeds), q) && AddAll(d, seeds)[q.table][q.id] == d[q.table][q.id]
  {
    if seeds != [] {
      var init, last := seeds[..|seeds| - 1], seeds[|seeds| - 1];
      AddAllRows(d, init);
      assert seeds == init + [last];
      forall q ensures Exists(AddAll(d, seeds), q) <==> Exists(d, q) || IsSeed(seeds, q) {
        assert IsSeed(seeds, q) <==> IsSeed(init, q) || Node(last.table, last.id) == q;
      }
    }
  }

  lemma {:induction false} RecordedIds(seeds: seq<Seed>, q: Node)
    ensures q.id in Listed(RecordAll(seeds), q.table) <==> IsSeed(seeds, q)
  {
    if seeds != [] {
      var init, last := seeds[..|seeds| - 1], seeds[|seeds| - 1];
      RecordedIds(init, q);
      assert seeds == init + [last];
      assert IsSeed(seeds, q) <==> IsSeed(init, q) || Node(last.table, last.id) == q;
      var before := RecordAll(init);
      if q.table == last.table {
        assert RecordAll(seeds)[q.table] == (if last.table in before then before[last.table] else []) + [last.id];
      }
    }
  }

  lemma {:induction false} RecordedTables(seeds: seq<Seed>, tables: set<TableName>)
    requires forall seed | seed in seeds :: seed.table in tables
    ensures RecordAll(seeds).Keys <= tables
  {
    if seeds != [] {
      RecordedTables(seeds[..|seeds| - 1], tables);
    }
  }

  /* ---- Seeding then resetting ---- */

  ghost predicate FreshStart(s: Schema, d: Database, legacy: map<TableName, seq<Id>>) {
    && ValidSchema(s) && d.Keys == s.tables && NoDangling(s, d)
    && MANIFEST_ID !in d[AUDIT] && MANIFEST_ID !in Listed(legacy, AUDIT)
    && legacy.Keys <= s.tables && (forall t | t in legacy :: Listed(legacy, t) !! d[t].Keys)
  }

  ghost function Seeded(d: Database, seeds: seq<Seed>): Database
    requires AUDIT in AddAll(d, seeds)
  {
    Saved(AddAll(d, seeds), RecordAll(seeds))
  }

  lemma InsertedRows(d: Database, t: TableName, i: Id, row: Row)
    requires t in d
    ensures Insert(d, t, i, row).Keys == d.Keys && Insert(d, t, i, row)[t][i] == row
    ensures forall q :: Exists(Insert(d, t, i, row), q) <==> Exists(d, q) || q == Node(t, i)
    ensures forall q | Exists(d, q) && q != Node(t, i) :: Insert(d, t, i, row)[q.table][q.id] == d[q.table][q.id]
  {}

  /** The rows of the seeded database: those of d, the seeds, and the manifest with the recorded ids. */
  lemma SeededRows(s: Schema, d: Database, legacy: map<TableName, seq<Id>>, seeds: seq<Seed>)
    requires FreshStart(s, d, legacy) && Fresh(s, d, seeds)
    ensures AddAll(d, seeds).Keys == d.Keys && Seeded(d, seeds).Keys == d.Keys
    ensures forall q :: Exists(Seeded(d, seeds), q) <==> Exists(d, q) || IsSeed(seeds, q) || q == Node(AUDIT, MANIFEST_ID)
    ensures forall q | Exists(d, q) :: Exists(Seeded(d, seeds), q) && Seeded(d, seeds)[q.table][q.id] == d[q.table][q.id]
    ensures Seeded(d, seeds)[AUDIT][MANIFEST_ID] == FRESH_MANIFEST["after_value" := Records(Merged(map[], RecordAll(seeds)))]
  {
    AddAllRows(d, seeds);
    var added := AddAll(d, seeds);
    assert !Exists(added, Node(AUDIT, MANIFEST_ID));
    assert Registered(added) == map[];
    InsertedRows(added, AUDIT, MANIFEST_ID, FRESH_MANIFEST["after_value" := Records(Merged(map[], RecordAll(seeds)))]);
  }

  lemma SeededManifest(s: Schema, d: Database, legacy: map<TableName, seq<Id>>, seeds: seq<Seed>)
    requires FreshStart(s, d, legacy) && Fresh(s, d, seeds)
    ensures AUDIT in AddAll(d, seeds) && AllKnown(s, Seeded(d, seeds), legacy)
    ensures Registered(Seeded(d, seeds)) == Merged(map[], RecordAll(seeds))
    ensures forall t :: Listed(Registered(Seeded(d, seeds)), t) == Listed(RecordAll(seeds), t)
  {
    SeededRows(s, d, legacy, seeds);
    RecordedTables(seeds, s.tables);
    assert Registered(Seeded(d, seeds)) == Merged(map[], RecordAll(seeds));
  }

  lemma MarkedCandidates(d: Database, legacy: map<TableName, seq<Id>>, q: Node)
    ensures Marked(Candidates(d, legacy), q) <==> Exists(d, q) && q.id in Owned(Registered(d), legacy, q.table)
  {}

  /** The reset picks up exactly the seeded rows. */
  lemma CandidatesAreSeeds(s: Schema, d: Database, legacy: map<TableName, seq<Id>>, seeds: seq<Seed>, q: Node)
    requires FreshStart(s, d, legacy) && Fresh(s, d, seeds)
    requires AUDIT in AddAll(d, seeds)
    ensures Marked(Candidates(Seeded(d, seeds), legacy), q) <==> IsSeed(seeds, q)
  {
    SeededRows(s, d, legacy, seeds);
    SeededManifest(s, d, legacy, seeds);
    RecordedIds(seeds, q);
    MarkedCandidates(Seeded(d, seeds), legacy, q);
  }

  lemma ManifestNamesItself(records: map<TableName, seq<Id>>, column: Column, i: Id)
    requires Points(FRESH_MANIFEST["after_value" := Records(records)], column, i)
    ensures i == MANIFEST_ID
  {}

  lemma LinksStayOutside(s: Schema, d: Database, legacy: map<TableName, seq<Id>>, seeds: seq<Seed>, l: Link, p: Node, q: Node)
    requires FreshStart(s, d, legacy) && Fresh(s, d, seeds)
    requires AUDIT in AddAll(d, seeds) && l in s.links
    requires LinkEdge(Seeded(d, seeds), l, p, q) && !IsSeed(seeds, p)
    ensures !IsSeed(seeds, q)
  {
    SeededRows(s, d, legacy, seeds);
    if Exists(d, p) {
      assert LinkEdge(d, l, p, q);
      assert Exists(d, q);
    } else {
      ManifestNamesItself(Merged(map[], RecordAll(seeds)), l.column, q.id);
    }
  }

  /** An outside row that refers to a seed can only be an audit row of the starting database. */
  lemma OutsideReference(s: Schema, d: Database, legacy: map<TableName, seq<Id>>, seeds: seq<Seed>, p: Node, q: Node)
    requires FreshStart(s, d, legacy) && Fresh(s, d, seeds)
    requires AUDIT in AddAll(d, seeds)
    requires References(s, Seeded(d, seeds), p, q) && IsSeed(seeds, q) && !IsSeed(seeds, p)
    ensures AuditNames(d, seeds)
  {
    SeededRows(s, d, legacy, seeds);
    var d2 := Seeded(d, seeds);
    if l :| l in s.links && LinkEdge(d2, l, p, q) {
      LinksStayOutside(s, d, legacy, seeds, l, p, q);
    } else {
      var rule :| rule in AUDIT_RULES && AuditEdge(d2, rule, p, q);
      assert AuditEdge(d, rule, p, q);
    }
  }

  lemma AuditNameHolds(s: Schema, d: Database, legacy: map<TableName, seq<Id>>, seeds: seq<Seed>) returns (q: Node)
    requires FreshStart(s, d, legacy) && Fresh(s, d, seeds)
    requires AUDIT in AddAll(d, seeds) && AuditNames(d, seeds)
    ensures IsSeed(seeds, q) && Reached(s, Seeded(d, seeds), Candidates(Seeded(d, seeds), legacy), q)
  {
    SeededRows(s, d, legacy, seeds);
    var rule, p, target :| rule in AUDIT_RULES && AuditEdge(d, rule, p, target) && IsSeed(seeds, target);
    q := target;
    var d2 := Seeded(d, seeds);
    assert AuditEdge(d2, rule, p, q);
    assert Exists(d, p) && !IsSeed(seeds, p);
    CandidatesAreSeeds(s, d, legacy, seeds, p);
    ReachedByReference(s, d2, Candidates(d2, legacy), p, q);
  }

  /** Without such audit rows the reset protects nothing. */
  lemma NothingProtected(s: Schema, d: Database, legacy: map<TableName, seq<Id>>, seeds: seq<Seed>)
    requires FreshStart(s, d, legacy) && Fresh(s, d, seeds)
    requires AUDIT in AddAll(d, seeds) && !AuditNames(d, seeds)
    ensures FinalMarks(s, Seeded(d, seeds), legacy) == Candidates(Seeded(d, seeds), legacy)
  {
    var d2 := Seeded(d, seeds);
    var candidates := Candidates(d2, legacy);
    forall p, q | References(s, d2, p, q) && Marked(candidates, q) ensures Marked(candidates, p) {
      CandidatesAreSeeds(s, d, legacy, seeds, p);
      CandidatesAreSeeds(s, d, legacy, seeds, q);
      if !IsSeed(seeds, p) {
        OutsideReference(s, d, legacy, seeds, p, q);
      }
    }
    ClosedIsDeletable(s, d2, candidates);
  }

  lemma RemovingSeedsRestores(s: Schema, d: Database, legacy: map<TableName, seq<Id>>, seeds: seq<Seed>)
    requires FreshStart(s, d, legacy) && Fresh(s, d, seeds)
    requires AUDIT in AddAll(d, seeds)
    requires FinalMarks(s, Seeded(d, seeds), legacy) == Candidates(Seeded(d, seeds), legacy)
    ensures AfterReset(s, Seeded(d, seeds), legacy) == d
  {
    SeededRows(s, d, legacy, seeds);
    var d2 := Seeded(d, seeds);
    var after := AfterReset(s, d2, legacy);
    forall q: Node ensures Exists(after, q) <==> Exists(d, q)
                   ensures Exists(d, q) ==> after[q.table][q.id] == d[q.table][q.id]
    {
      AfterResetRow(s, d2, legacy, q);
      CandidatesAreSeeds(s, d, legacy, seeds, q);
    }
    SameRows(after, d);
  }

  lemma SameRows(d: Database, e: Database)
    requires d.Keys == e.Keys
    requires forall q :: Exists(d, q) <==> Exists(e, q)
    requires forall q | Exists(d, q) :: Exists(e, q) && d[q.table][q.id] == e[q.table][q.id]
    ensures d == e
  {
    forall t | t in d ensures d[t] == e[t] {
      forall i ensures i in d[t] <==> i in e[t] {
        assert Exists(d, Node(t, i)) <==> Exists(e, Node(t, i));
      }
      forall i | i in d[t] ensures d[t][i] == e[t][i] {
        assert Exists(d, Node(t, i));
      }
    }
  }

  /** Seeding a database and resetting it restores it exactly, unless an audit row already named a seeded user
      or event, or the non-null references between the seeded tables form a cycle. */
  lemma SeedThenReset(s: Schema, d: Database, legacy: map<TableName, seq<Id>>, seeds: seq<Seed>)
    requires FreshStart(s, d, legacy) && Fresh(s, d, seeds)
    ensures AUDIT in AddAll(d, seeds)
    ensures var d2 := Seeded(d, seeds);
            ResetSucceeds(s, d2, legacy) && AfterReset(s, d2, legacy) == d
            <==> !AuditNames(d, seeds) && Acyclic(HardGraph(s, d2, Candidates(d2, legacy)))
  {
    AddAllRows(d, seeds);
    SeededManifest(s, d, legacy, seeds);
    var d2 := Seeded(d, seeds);
    if AuditNames(d, seeds) {
      var q := AuditNameHolds(s, d, legacy, seeds);
      SeedSurvives(s, d, legacy, seeds, q);
    } else {
      NothingProtected(s, d, legacy, seeds);
      RemovingSeedsRestores(s, d, legacy, seeds);
    }
  }

  /** An old audit row naming a seeded user: seeding the user and resetting does not restore the database. */
  lemma NamedSeedStays(s: Schema, d: Database, seeds: seq<Seed>)
    requires s == Schema({AUDIT, "users"}, [])
    requires d == map[AUDIT := map[5 := map["actor_user_id" := Uuid(3)]], "users" := map[]]
    requires seeds == [Seed("users", 3, map[])]
    ensures FreshStart(s, d, map[]) && Fresh(s, d, seeds) && AUDIT in AddAll(d, seeds)
    ensures !(ResetSucceeds(s, Seeded(d, seeds), map[]) && AfterReset(s, Seeded(d, seeds), map[]) == d)
  {
    assert AuditEdge(d, AUDIT_RULES[0], Node(AUDIT, 5), Node("users", 3));
    assert seeds[0] in seeds && IsSeed(seeds, Node("users", 3));
    assert AUDIT_RULES[0] in AUDIT_RULES && AuditNames(d, seeds);
    SeedThenReset(s, d, map[], seeds);
  }

  /** A seed that must refer to itself: the reset after seeding it raises. */
  lemma SelfReferringSeedStays(s: Schema, d: Database, seeds: seq<Seed>)
    requires s == Schema({AUDIT, "users"}, [Link("users", "mentor", "users", false)])
    requires d == map[AUDIT := map[], "users" := map[]]
    requires seeds == [Seed("users", 3, map["mentor" := Uuid(3)])]
    ensures FreshStart(s, d, map[]) && Fresh(s, d, seeds) && AUDIT in AddAll(d, seeds)
    ensures !(ResetSucceeds(s, Seeded(d, seeds), map[]) && AfterReset(s, Seeded(d, seeds), map[]) == d)
  {
    var q := Node("users", 3);
    SeedThenReset(s, d, map[], seeds);
    var d2 := Seeded(d, seeds);
    assert seeds[0] in seeds && IsSeed(seeds, q);
    CandidatesAreSeeds(s, d, map[], seeds, q);
    SeedRow(d, seeds);
    assert HardReference(s, d2, Candidates(d2, map[]), "users", "users") by {
      assert s.links[0] in s.links && Points(d2["users"][3], "mentor", 3);
    }
    assert IsCycle(HardGraph(s, d2, Candidates(d2, map[])), ["users", "users"]);
  }

  lemma SeedRow(d: Database, seeds: seq<Seed>)
    requires |seeds| == 1 && seeds[0].table != AUDIT && AUDIT in d && seeds[0].table in d && seeds[0].id !in d[seeds[0].table]
    ensures AUDIT in AddAll(d, seeds)
    ensures var d2 := Seeded(d, seeds);
      seeds[0].table in d2 && seeds[0].id in d2[seeds[0].table] && d2[seeds[0].table][seeds[0].id] == seeds[0].values
  {
    assert seeds[..0] == [];
  }

  lemma SeedSurvives(s: Schema, d: Database, legacy: map<TableName, seq<Id>>, seeds: seq<Seed>, q: Node)
    requires FreshStart(s, d, legacy) && Fresh(s, d, seeds)
    requires AUDIT in AddAll(d, seeds) && IsSeed(seeds, q)
    requires Reached(s, Seeded(d, seeds), Candidates(Seeded(d, seeds), legacy), q)
    ensures AfterReset(s, Seeded(d, seeds), legacy) != d
  {
    SeededRows(s, d, legacy, seeds);
    var d2 := Seeded(d, seeds);
    DeletableMarks(s, d2, Candidates(d2, legacy), q);
    AfterResetRow(s, d2, legacy, q);
    assert Exists(d2, q) && !Exists(d, q);
  }

  /** Replaying the same additions and saving again changes nothing, manifest included. */
  lemma SeedAgain(s: Schema, d: Database, legacy: map<TableName, seq<Id>>, seeds: seq<Seed>)
    requires FreshStart(s, d, legacy) && Fresh(s, d, seeds)
    ensures AUDIT in AddAll(d, seeds)
    ensures AddAll(Seeded(d, seeds), seeds) == Seeded(d, seeds)
    ensures Saved(Seeded(d, seeds), RecordAll(seeds)) == Seeded(d, seeds)
  {
    AddAllRows(d, seeds);
    SeededRows(s, d, legacy, seeds);
    SeededManifest(s, d, legacy, seeds);
    var d2 := Seeded(d, seeds);
    forall seed | seed in seeds ensures Exists(d2, Node(seed.table, seed.id)) {
      assert IsSeed(seeds, Node(seed.table, seed.id));
    }
    AddExisting(d2, seeds);
    MergeAgain(RecordAll(seeds));
    SaveSame(d2, RecordAll(seeds));
  }

  lemma {:induction false} AddExisting(d: Database, seeds: seq<Seed>)
    requires forall seed | seed in seeds :: Exists(d, Node(seed.table, seed.id))
    ensures AddAll(d, seeds) == d
  {
    if seeds != [] {
      AddExisting(d, seeds[..|seeds| - 1]);
      assert Exists(d, Node(seeds[|seeds| - 1].table, seeds[|seeds| - 1].id));
    }
  }

  lemma MergeAgain(records: map<TableName, seq<Id>>)
    ensures Merged(Merged(map[], records), records) == Merged(map[], records)
  {
    forall t | t in records ensures Owned(Merged(map[], records), records, t) == Owned(map[], records, t) {}
  }

  lemma SaveSame(d: Database, records: map<TableName, seq<Id>>)
    requires AUDIT in d && MANIFEST_ID in d[AUDIT]
    requires var row := d[AUDIT][MANIFEST_ID];
             "after_value" in row && row["after_value"] == Records(Merged(Registered(d), records))
    ensures Saved(d, records) == d
  {
    var row := d[AUDIT][MANIFEST_ID];
    assert row["after_value" := row["after_value"]] == row;
    assert d[AUDIT] + map[MANIFEST_ID := row] == d[AUDIT];
  }

  /* ---- The writer ---- */

  class SeedWriter {
    const db: Session
    const seedId: (TableName, string) -> Id
    var records: map<TableName, seq<Id>>
    var created: set<Id>

    constructor (db: Session, seedId: (TableName, string) -> Id)
      ensures this.db == db && this.seedId == seedId && records == map[] && created == {}
    {
      this.db, this.seedId, records, created := db, seedId, map[], {};
    }

    /** Inserts the row under its derived id unless that id exists, and records the id either way. */
    method Add(table: TableName, key: string, values: Row) returns (r: Added)
      requires db.Valid() && table in db.schema.tables
      modifies this, db
      ensures db.Valid()
      ensures var seed, d := Seed(table, seedId(table, key), values), old(db.tables);
        if Exists(d, Node(table, seed.id)) then
          r == Existing(d[table][seed.id]) && db.tables == AddOne(d, seed) == d
          && records == Record(old(records), seed) && created == old(created)
        else if Resolves(db.schema, d, seed) then
          r == Created(values) && db.tables == AddOne(d, seed)
          && records == Record(old(records), seed) && created == old(created) + {seed.id}
        else
          r == ForeignKeyViolation && db.tables == d && records == old(records) && created == old(created)
      ensures r == ForeignKeyViolation <==>
              seedId(table, key) !in old(db.tables)[table] && Unresolved(db.schema, old(db.tables), table, seedId(table, key), values)
      ensures NoDangling(db.schema, old(db.tables)) ==> NoDangling(db.schema, db.tables)
    {
      var seed := Seed(table, seedId(table, key), values);
      if seed.id in db.tables[table] {
        r := Existing(db.tables[table][seed.id]);
      } else {
        if !Resolves(db.schema, db.tables, seed) {
          return ForeignKeyViolation;
        }
        ResolvedInsert(db.schema, db.tables, seed);
        db.tables := Insert(db.tables, table, seed.id, values);
        created := created + {seed.id};
        r := Created(values);
      }
      records := Record(records, seed);
    }

    /** Merges the recorded ids into the manifest, sorted and without duplicates; returns the counts per table. */
    method Save() returns (counts: map<TableName, nat>)
      requires db.Valid()
      modifies db
      ensures db.Valid() && db.tables == Saved(old(db.tables), records)
      ensures counts.Keys == Registered(old(db.tables)).Keys + records.Keys
      ensures forall t | t in counts :: counts[t] == |Owned(Registered(old(db.tables)), records, t)|
    {
      var prior := Registered(db.tables);
      var merged := Merged(prior, records);
      var row := if MANIFEST_ID in db.tables[AUDIT] then db.tables[AUDIT][MANIFEST_ID] else FRESH_MANIFEST;
      db.tables := Insert(db.tables, AUDIT, MANIFEST_ID, row["after_value" := Records(merged)]);
      forall t | t in merged ensures |merged[t]| == |Owned(prior, records, t)| {
        SortedLength(Owned(prior, records, t));
      }
      counts := map t | t in merged :: |merged[t]|;
    }
  }

  lemma {:induction false} SortedLength(s: set<Id>)
    ensures |SortedIds(s)| == |s|
    decreases s
  {
    if s != {} {
      var m := SortedIds(s)[0];
      SortedLength(s - {m});
    }
  }

  lemma ResolvedInsert(s: Schema, d: Database, seed: Seed)
    requires seed.table in d && seed.id !in d[seed.table] && Resolves(s, d, seed)
    ensures NoDangling(s, d) ==> NoDangling(s, Insert(d, seed.table, seed.id, seed.values))
  {
    InsertedRows(d, seed.table, seed.id, seed.values);
    var after := Insert(d, seed.table, seed.id, seed.values);
    if NoDangling(s, d) {
      forall l, p, q | l in s.links && LinkEdge(after, l, p, q) ensures Exists(after, q) {
        if Exists(d, p) {
          assert LinkEdge(d, l, p, q);
        }
      }
    }
  }

  /* ---- Checking that everything else survived ---- */

  /** The rows that neither the manifest nor the legacy inventory claims. */
  function Unowned(d: Database, legacy: map<TableName, seq<Id>>): Database {
    map t | t in d :: d[t] - Owned(Registered(d), legacy, t) - (if t == AUDIT then {MANIFEST_ID} else {})
  }

  /** Renaming a category is the one change that a refresh may make. */
  predicate MayChange(allowLabels: bool, t: TableName, c: Column) {
    allowLabels && t in {"main_categories", "sub_categories"} && c in {"name", "updated_at"}
  }

  predicate SameColumn(before: Row, after: Row, c: Column)
    requires c in before
  {
    c in after && after[c] == before[c]
  }

  ghost predicate SameRow(allowLabels: bool, t: TableName, before: Row, after: Row) {
    forall c | c in before && !MayChange(allowLabels, t, c) :: SameColumn(before, after, c)
  }

  ghost predicate RowPreserved(d: Database, baseline: Database, allowLabels: bool, q: Node) {
    Exists(baseline, q) ==> Exists(d, q) && SameRow(allowLabels, q.table, baseline[q.table][q.id], d[q.table][q.id])
  }

  function Only(d: Database, tables: set<TableName>): Database {
    map t | t in d && t in tables :: d[t]
  }

  lemma OnlyOneMore(d: Database, tables: set<TableName>, todo: set<TableName>, t: TableName)
    requires t in todo && t in d && t in tables
    ensures Only(d, tables - todo)[t := d[t]] == Only(d, tables - (todo - {t}))
  {}

  method SnapshotUnowned(db: Session) returns (baseline: Database)
    ensures baseline == Unowned(db.tables, db.legacy)
  {
    var owned := Registered(db.tables);
    baseline := map[];
    var todo := db.tables.Keys;
    while todo != {}
      invariant todo <= db.tables.Keys
      invariant baseline == Only(Unowned(db.tables, db.legacy), db.tables.Keys - todo)
    {
      var t :| t in todo;
      var ignored := Owned(owned, db.legacy, t);
      if t == AUDIT {
        ignored := ignored + {MANIFEST_ID};
      }
      var rows := db.tables[t] - ignored;
      assert rows == Unowned(db.tables, db.legacy)[t];
      OnlyOneMore(Unowned(db.tables, db.legacy), db.tables.Keys, todo, t);
      baseline := baseline[t := rows];
      todo := todo - {t};
    }
  }

  /** Compares one row column by column. */
  method CompareRow(t: TableName, before: Row, after: Row, allowLabels: bool) returns (changed: bool, column: Column)
    ensures changed <==> !SameRow(allowLabels, t, before, after)
    ensures changed ==> column in before && !MayChange(allowLabels, t, column) && !SameColumn(before, after, column)
  {
    changed, column := false, "";
    var todo := before.Keys;
    while todo != {}
      invariant todo <= before.Keys
      invariant forall c | c in before.Keys - todo && !MayChange(allowLabels, t, c) :: SameColumn(before, after, c)
    {
      var c :| c in todo;
      if !MayChange(allowLabels, t, c) && !SameColumn(before, after, c) {
        return true, c;
      }
      todo := todo - {c};
    }
  }

  method CompareTable(t: TableName, rows: map<Id, Row>, current: map<Id, Row>, allowLabels: bool) returns (r: Preservation)
    ensures r.Intact? <==> forall i | i in rows :: i in current && SameRow(allowLabels, t, rows[i], current[i])
    ensures r.Deleted? ==> r.node.table == t && r.node.id in rows && r.node.id !in current
    ensures r.Changed? ==> r.node.table == t && r.node.id in rows && r.node.id in current
    ensures r.Changed? ==> r.column in rows[r.node.id] && !MayChange(allowLabels, t, r.column)
    ensures r.Changed? ==> !SameColumn(rows[r.node.id], current[r.node.id], r.column)
  {
    r := Intact;
    var todo := rows.Keys;
    while todo != {}
      invariant todo <= rows.Keys
      invariant forall i | i in rows.Keys - todo :: i in current && SameRow(allowLabels, t, rows[i], current[i])
    {
      var i :| i in todo;
      if i !in current {
        return Deleted(Node(t, i));
      }
      var changed, column := CompareRow(t, rows[i], current[i], allowLabels);
      if changed {
        return Changed(Node(t, i), column);
      }
      todo := todo - {i};
    }
  }

  /** Raises unless every row of the baseline is still there with the same columns. */
  method AssertPreserved(db: Session, baseline: Database, allowLabels: bool) returns (r: Preservation)
    ensures r.Intact? <==> forall q :: RowPreserved(db.tables, baseline, allowLabels, q)
    ensures r.Deleted? ==> Exists(baseline, r.node) && !Exists(db.tables, r.node)
    ensures r.Changed? ==> Exists(baseline, r.node) && Exists(db.tables, r.node)
    ensures r.Changed? ==> r.column in baseline[r.node.table][r.node.id] && !MayChange(allowLabels, r.node.table, r.column)
    ensures r.Changed? ==> !SameColumn(baseline[r.node.table][r.node.id], db.tables[r.node.table][r.node.id], r.column)
  {
    r := Intact;
    var todo := baseline.Keys;
    while todo != {}
      invariant todo <= baseline.Keys && r.Intact?
      invariant forall q: Node | q.table in baseline.Keys - todo :: RowPreserved(db.tables, baseline, allowLabels, q)
    {
      var t :| t in todo;
      r := CompareTable(t, baseline[t], Rows(db.tables, t), allowLabels);
      if !r.Intact? {
        assert Exists(baseline, r.node) && !RowPreserved(db.tables, baseline, allowLabels, r.node);
        return;
      }
      todo := todo - {t};
    }
  }

  /** The reset leaves every unowned row as it is. */
  lemma ResetKeepsUnowned(s: Schema, d: Database, legacy: map<TableName, seq<Id>>, q: Node)
    requires ValidSchema(s) && d.Keys == s.tables && ResetSucceeds(s, d, legacy) && Exists(Unowned(d, legacy), q)
    ensures q != Node(AUDIT, MANIFEST_ID) && Exists(AfterReset(s, d, legacy), q)
    ensures AfterReset(s, d, legacy)[q.table][q.id] == Unowned(d, legacy)[q.table][q.id]
  {
    AfterResetRow(s, d, legacy, q);
    DeletableMarks(s, d, Candidates(d, legacy), q);
    MarkedCandidates(d, legacy, q);
  }

  /** So do seeding and saving, apart from the manifest. */
  lemma SeedingKeeps(d: Database, seeds: seq<Seed>, q: Node)
    requires AUDIT in AddAll(d, seeds) && Exists(d, q) && q != Node(AUDIT, MANIFEST_ID)
    requires forall seed | seed in seeds :: seed.table in d
    ensures Exists(Saved(AddAll(d, seeds), RecordAll(seeds)), q)
    ensures Saved(AddAll(d, seeds), RecordAll(seeds))[q.table][q.id] == d[q.table][q.id]
  {
    AddAllRows(d, seeds);
    var added := AddAll(d, seeds);
    assert Saved(added, RecordAll(seeds))[q.table][q.id] == added[q.table][q.id];
  }

  /** Resetting and then seeding again keeps every unowned row identical, so the check never raises. */
  lemma ReseedingPreserves(s: Schema, d: Database, legacy: map<TableName, seq<Id>>, seeds: seq<Seed>, q: Node)
    requires ValidSchema(s) && d.Keys == s.tables && ResetSucceeds(s, d, legacy)
    requires forall seed | seed in seeds :: seed.table in s.tables
    ensures RowPreserved(AfterReset(s, d, legacy), Unowned(d, legacy), false, q)
    ensures AUDIT in AddAll(AfterReset(s, d, legacy), seeds)
    ensures RowPreserved(Saved(AddAll(AfterReset(s, d, legacy), seeds), RecordAll(seeds)), Unowned(d, legacy), false, q)
  {
    var after := AfterReset(s, d, legacy);
    assert AUDIT in AddAll(after, seeds) by {
      AddAllRows(after, seeds);
    }
    if Exists(Unowned(d, legacy), q) {
      ResetKeepsUnowned(s, d, legacy, q);
      SeedingKeeps(after, seeds, q);
    }
  }
}
