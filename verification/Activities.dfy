/** The activity list of an event: sessions and competitions merged, paged from a bounded fetch of each. */
module Activities {
  import opened Common
  import opened Sorting

  type Id = nat
  /** Titles matter only through their order. */
  type Title = int

  datatype Activity =
    | Session(id: Id, title: Title, start: int)
    | Competition(id: Id, title: Title, created: int)

  /** The merge key: sessions by start, title and id; then competitions, which have no start, by title and id. */
  predicate KeyLess(x: Activity, y: Activity) {
    match (x, y)
    case (Session(i, t, s), Session(j, u, r)) => s < r || (s == r && (t < u || (t == u && i < j)))
    case (Session(_, _, _), Competition(_, _, _)) => true
    case (Competition(_, _, _), Session(_, _, _)) => false
    case (Competition(i, t, _), Competition(j, u, _)) => t < u || (t == u && i < j)
  }

  /** The order of each query: sessions by start and id, competitions by creation and id. */
  predicate QueryLess(x: Activity, y: Activity) {
    match (x, y)
    case (Session(i, _, s), Session(j, _, r)) => s < r || (s == r && i < j)
    case (Session(_, _, _), Competition(_, _, _)) => true
    case (Competition(_, _, _), Session(_, _, _)) => false
    case (Competition(i, _, c), Competition(j, _, d)) => c < d || (c == d && i < j)
  }

  function Key(): (Activity, Activity) -> bool {
    (x, y) => KeyLess(x, y)
  }

  function Query(): (Activity, Activity) -> bool {
    (x, y) => QueryLess(x, y)
  }

  /** Rows of one table: all of one kind, with distinct ids. */
  predicate Sessions(rows: seq<Activity>) {
    (forall i | 0 <= i < |rows| :: rows[i].Session?) && forall i, j | 0 <= i < j < |rows| :: rows[i].id != rows[j].id
  }

  predicate Competitions(rows: seq<Activity>) {
    (forall i | 0 <= i < |rows| :: rows[i].Competition?) && forall i, j | 0 <= i < j < |rows| :: rows[i].id != rows[j].id
  }

  function Take<T>(s: seq<T>, n: nat): seq<T> {
    s[..Min(n, |s|)]
  }

  /** A Python slice: bounds beyond the end are clipped. */
  function Slice<T>(s: seq<T>, low: nat, count: nat): seq<T> {
    s[Min(low, |s|)..Min(low + count, |s|)]
  }

  function Fetch(rows: seq<Activity>, limit: nat): seq<Activity> {
    Take(Sort(Query(), rows), limit)
  }

  function Merged(sessions: seq<Activity>, competitions: seq<Activity>): seq<Activity> {
    Sort(Key(), sessions + competitions)
  }

  /** Sessions by start, then title, then id; after them competitions by title, then id. */
  predicate InListOrder(items: seq<Activity>) {
    forall i, j | 0 <= i < j < |items| ::
      match (items[i], items[j])
      case (Session(a, t, s), Session(b, u, r)) => s <= r && (s == r ==> t <= u) && (s == r && t == u ==> a < b)
      case (Session(_, _, _), Competition(_, _, _)) => true
      case (Competition(_, _, _), Session(_, _, _)) => false
      case (Competition(a, t, _), Competition(b, u, _)) => t <= u && (t == u ==> a < b)
  }

  /** Fetches page * size rows of each table, merges them, and cuts out the page. */
  method ActivityPage(sessions: seq<Activity>, competitions: seq<Activity>, page: nat, size: nat)
      returns (items: seq<Activity>, total: nat)
    requires Sessions(sessions) && Competitions(competitions) && page >= 1 && size >= 1
    ensures total == |sessions| + |competitions|
    ensures |items| == |Slice(Merged(sessions, competitions), (page - 1) * size, size)|
    ensures items == Slice(Merged(sessions, competitions), (page - 1) * size, size) <==>
            PageFetched(sessions, competitions, (page - 1) * size, size)
    ensures InListOrder(items)
  {
    var limit := page * size;
    var fetched := Fetch(sessions, limit) + Fetch(competitions, limit);
    var merged := Sort(Key(), fetched);
    var start := (page - 1) * size;
    assert start + size == limit;
    items := Slice(merged, start, size);
    total := |sessions| + |competitions|;
    PageLength(sessions, competitions, start, size);
    PageExact(sessions, competitions, start, size);
    PageInListOrder(sessions, competitions, start, size);
  }

  lemma PageInListOrder(sessions: seq<Activity>, competitions: seq<Activity>, start: nat, size: nat)
    requires Sessions(sessions) && Competitions(competitions)
    ensures InListOrder(Slice(Merged(Fetch(sessions, start + size), Fetch(competitions, start + size)), start, size))
  {
    var merged := Merged(Fetch(sessions, start + size), Fetch(competitions, start + size));
    FetchedPart(sessions, competitions, start + size);
    var page := Slice(merged, start, size);
    forall i, j | 0 <= i < j < |page| ensures Key()(page[i], page[j]) {
      assert page[i] == merged[Min(start, |merged|) + i] && page[j] == merged[Min(start, |merged|) + j];
    }
    AscendingIsListOrder(page);
  }

  lemma AscendingIsListOrder(items: seq<Activity>)
    requires Ascending(Key(), items)
    ensures InListOrder(items)
  {
    forall i, j | 0 <= i < j < |items| ensures KeyLess(items[i], items[j]) {
      assert Key()(items[i], items[j]);
    }
  }

  /** The first `limit` rows of the query include the rows of its table that come before place `limit` by the merge key,
      when the table's rows start at place `offset`. */
  predicate Covers(rows: seq<Activity>, offset: nat, limit: nat) {
    forall i | 0 <= i < |Sort(Key(), rows)| && offset + i < limit :: Sort(Key(), rows)[i] in Fetch(rows, limit)
  }

  /** The page is empty, or each query covers its part of the list up to the page's end. */
  predicate PageFetched(sessions: seq<Activity>, competitions: seq<Activity>, start: nat, size: nat) {
    start >= |sessions| + |competitions|
    || (Covers(sessions, 0, start + size) && Covers(competitions, |sessions|, start + size))
  }

  /* ---- Ascending sequences ---- */

  function Elements<T>(s: seq<T>): set<T> {
    set x | x in s
  }

  lemma {:induction false} AscendingCardinality<T(!new)>(less: (T, T) -> bool, s: seq<T>)
    requires StrictOrder(less) && Ascending(less, s)
    ensures |Elements(s)| == |s|
  {
    if s != [] {
      var init, last := s[..|s| - 1], s[|s| - 1];
      AscendingCardinality(less, init);
      assert s == init + [last];
      assert Elements(s) == Elements(init) + {last};
      assert last !in init;
    }
  }

  lemma SubsetCardinality<T>(s: set<T>, t: set<T>)
    requires s <= t
    ensures |s| <= |t| && (|s| == |t| ==> s == t)
  {
    assert t == s + (t - s);
  }

  lemma PrefixAscending<T>(less: (T, T) -> bool, s: seq<T>, k: nat)
    requires Ascending(less, s) && k <= |s|
    ensures Ascending(less, s[..k])
  {}

  /** What lies below the element at place i is at the first i places. */
  lemma BelowIsBefore<T(!new)>(less: (T, T) -> bool, s: seq<T>, i: nat, x: T)
    requires StrictOrder(less) && Ascending(less, s) && i < |s| && x in s && less(x, s[i])
    ensures x in s[..i]
  {}

  lemma EarlierDiffers<T(!new)>(less: (T, T) -> bool, s: seq<T>, t: seq<T>, p: nat)
    requires StrictOrder(less) && Ascending(less, t) && p <= |s| && p < |t| && s[..p] == t[..p]
    ensures forall i | 0 <= i < p :: s[i] != t[p]
  {}

  lemma LaterDiffers<T(!new)>(less: (T, T) -> bool, part: seq<T>, full: seq<T>, p: nat)
    requires StrictOrder(less) && Ascending(less, part) && Ascending(less, full) && p < |part| && p < |full|
    requires part[..p] == full[..p] && forall x | x in part :: x in full
    ensures forall i | p < i < |part| :: part[i] != full[p]
  {
    assert part[p] in full;
    var m :| 0 <= m < |full| && full[m] == part[p];
    EarlierDiffers(less, full, part, p);
    assert m >= p;
    forall i | p < i < |part| ensures part[i] != full[p] {
      assert less(part[p], part[i]);
      assert m == p || less(full[p], full[m]);
    }
  }

  /** If the first k elements of the larger list are in the smaller one, both start with the same k elements. */
  lemma {:induction false} CommonPrefix<T(!new)>(less: (T, T) -> bool, part: seq<T>, full: seq<T>, k: nat)
    requires StrictOrder(less) && Ascending(less, part) && Ascending(less, full) && k <= |full|
    requires forall x | x in part :: x in full
    requires forall i | 0 <= i < k :: full[i] in part
    ensures k <= |part| && part[..k] == full[..k]
  {
    if k > 0 {
      CommonPrefix(less, part, full, k - 1);
      var j :| 0 <= j < |part| && part[j] == full[k - 1];
      EarlierDiffers(less, part, full, k - 1);
      assert j >= k - 1;
      LaterDiffers(less, part, full, k - 1);
      assert part[..k] == part[..k - 1] + [part[k - 1]];
      assert full[..k] == full[..k - 1] + [full[k - 1]];
    }
  }

  /** If both lists have the same element at place k, they start with the same k elements. */
  lemma SamePlaceSamePrefix<T(!new)>(less: (T, T) -> bool, part: seq<T>, full: seq<T>, k: nat)
    requires StrictOrder(less) && Ascending(less, part) && Ascending(less, full) && k < |full| && k < |part|
    requires forall x | x in part :: x in full
    requires part[k] == full[k]
    ensures forall i | 0 <= i < k :: full[i] in part
  {
    forall x | x in part[..k] ensures x in full[..k] {
      var j :| 0 <= j < k && part[j] == x;
      assert less(part[j], part[k]);
      BelowIsBefore(less, full, k, x);
    }
    PrefixAscending(less, part, k);
    PrefixAscending(less, full, k);
    AscendingCardinality(less, part[..k]);
    AscendingCardinality(less, full[..k]);
    SubsetCardinality(Elements(part[..k]), Elements(full[..k]));
    forall i | 0 <= i < k ensures full[i] in part {
      assert full[..k][i] in Elements(full[..k]);
    }
  }

  /* ---- Facts about the two orders ---- */

  lemma OrdersAreStrict()
    ensures StrictOrder(Key()) && StrictOrder(Query())
  {}

  lemma RowsComparable(rows: seq<Activity>)
    requires Sessions(rows) || Competitions(rows)
    ensures Comparable(Key(), rows) && Comparable(Query(), rows)
  {}

  /** Fetched rows come from the table, without repetition. */
  lemma FetchedRows(rows: seq<Activity>, limit: nat)
    requires Sessions(rows) || Competitions(rows)
    ensures |Fetch(rows, limit)| == Min(limit, |rows|)
    ensures forall x | x in Fetch(rows, limit) :: x in rows
    ensures Sessions(rows) ==> Sessions(Fetch(rows, limit))
    ensures Competitions(rows) ==> Competitions(Fetch(rows, limit))
  {
    var sorted := Sort(Query(), rows);
    SortPermutes(Query(), rows);
    forall x | x in sorted ensures x in rows {
      SameMembers(sorted, rows, x);
    }
    DistinctIdsKept(rows, sorted);
    forall i | 0 <= i < |sorted| ensures sorted[i].Session? == Sessions(rows) || rows == [] {
      assert sorted[i] in rows;
    }
  }

  /** The query for sessions fetches the earliest ones, the one for competitions those created first, by id among equals. */
  predicate FetchedBefore(x: Activity, y: Activity) {
    match (x, y)
    case (Session(a, _, s), Session(b, _, r)) => s < r || (s == r && a < b)
    case (Competition(a, _, c), Competition(b, _, d)) => c < d || (c == d && a < b)
    case _ => false
  }

  lemma FetchedFirst(rows: seq<Activity>, limit: nat, x: Activity, y: Activity)
    requires (Sessions(rows) || Competitions(rows)) && x in Fetch(rows, limit) && y in rows && y !in Fetch(rows, limit)
    ensures FetchedBefore(x, y)
  {
    var sorted := Sort(Query(), rows);
    OrdersAreStrict();
    RowsComparable(rows);
    SortSorts(Query(), rows);
    SortPermutes(Query(), rows);
    SameMembers(sorted, rows, y);
    FetchedRows(rows, limit);
    var i :| 0 <= i < |Fetch(rows, limit)| && Fetch(rows, limit)[i] == x;
    var j :| 0 <= j < |sorted| && sorted[j] == y;
    assert forall k | 0 <= k < |Fetch(rows, limit)| :: Fetch(rows, limit)[k] == sorted[k] && sorted[k] in Fetch(rows, limit);
    assert Query()(sorted[i], sorted[j]);
    assert x in rows;
  }

  lemma DistinctIdsKept(rows: seq<Activity>, sorted: seq<Activity>)
    requires Sessions(rows) || Competitions(rows)
    requires sorted == Sort(Query(), rows) && forall x | x in sorted :: x in rows
    ensures forall i, j | 0 <= i < j < |sorted| :: sorted[i].id != sorted[j].id
  {
    OrdersAreStrict();
    RowsComparable(rows);
    SortSorts(Query(), rows);
    forall i, j | 0 <= i < j < |sorted| ensures sorted[i].id != sorted[j].id {
      assert Query()(sorted[i], sorted[j]);
      assert sorted[i] in rows && sorted[j] in rows;
      var k :| 0 <= k < |rows| && rows[k] == sorted[i];
      var m :| 0 <= m < |rows| && rows[m] == sorted[j];
      assert k != m;
    }
  }

  /** The merged list is ascending and holds exactly the rows. */
  lemma MergedFacts(sessions: seq<Activity>, competitions: seq<Activity>)
    requires Sessions(sessions) && Competitions(competitions)
    ensures Ascending(Key(), Merged(sessions, competitions))
    ensures |Merged(sessions, competitions)| == |sessions| + |competitions|
    ensures forall x :: x in Merged(sessions, competitions) <==> x in sessions || x in competitions
  {
    var rows := sessions + competitions;
    OrdersAreStrict();
    assert Comparable(Key(), rows);
    SortSorts(Key(), rows);
    SortPermutes(Key(), rows);
    forall x ensures x in Sort(Key(), rows) <==> x in sessions || x in competitions {
      SameMembers(Sort(Key(), rows), rows, x);
    }
  }

  lemma FetchedSize(sessions: seq<Activity>, competitions: seq<Activity>, limit: nat)
    requires Sessions(sessions) && Competitions(competitions)
    ensures |Merged(Fetch(sessions, limit), Fetch(competitions, limit))| == Min(limit, |sessions|) + Min(limit, |competitions|)
  {
    FetchedRows(sessions, limit);
    FetchedRows(competitions, limit);
    MergedFacts(Fetch(sessions, limit), Fetch(competitions, limit));
  }

  lemma PageLength(sessions: seq<Activity>, competitions: seq<Activity>, start: nat, size: nat)
    requires Sessions(sessions) && Competitions(competitions)
    ensures var limit := start + size;
            |Slice(Merged(Fetch(sessions, limit), Fetch(competitions, limit)), start, size)|
            == |Slice(Merged(sessions, competitions), start, size)|
  {
    MergedFacts(sessions, competitions);
    FetchedSize(sessions, competitions, start + size);
  }

  /** The list merged from the fetched rows is a sorted part of the fully merged one. */
  lemma FetchedPart(sessions: seq<Activity>, competitions: seq<Activity>, limit: nat)
    requires Sessions(sessions) && Competitions(competitions)
    ensures var full, part := Merged(sessions, competitions), Merged(Fetch(sessions, limit), Fetch(competitions, limit));
            Ascending(Key(), part) && Ascending(Key(), full) && forall x | x in part :: x in full
    ensures |Merged(Fetch(sessions, limit), Fetch(competitions, limit))| <= |Merged(sessions, competitions)|
  {
    FetchedRows(sessions, limit);
    FetchedRows(competitions, limit);
    MergedFacts(sessions, competitions);
    MergedFacts(Fetch(sessions, limit), Fetch(competitions, limit));
  }

  lemma FetchedMembers(sessions: seq<Activity>, competitions: seq<Activity>, limit: nat)
    requires Sessions(sessions) && Competitions(competitions)
    ensures forall x :: x in Merged(Fetch(sessions, limit), Fetch(competitions, limit)) <==>
                        x in Fetch(sessions, limit) || x in Fetch(competitions, limit)
  {
    FetchedRows(sessions, limit);
    FetchedRows(competitions, limit);
    MergedFacts(Fetch(sessions, limit), Fetch(competitions, limit));
  }

  /** The merged list is the sessions followed by the competitions, each by the merge key. */
  lemma MergedIsSplit(sessions: seq<Activity>, competitions: seq<Activity>)
    requires Sessions(sessions) && Competitions(competitions)
    ensures Merged(sessions, competitions) == Sort(Key(), sessions) + Sort(Key(), competitions)
    ensures |Sort(Key(), sessions)| == |sessions| && |Sort(Key(), competitions)| == |competitions|
  {
    var some, others := Sort(Key(), sessions), Sort(Key(), competitions);
    OrdersAreStrict();
    SortedTable(sessions);
    SortedTable(competitions);
    MergedFacts(sessions, competitions);
    SortPermutes(Key(), sessions + competitions);
    forall i, j | 0 <= i < |some| && 0 <= j < |others| ensures Key()(some[i], others[j]) {
      assert some[i] in sessions && others[j] in competitions;
    }
    AscendingUnique(Key(), Merged(sessions, competitions), some + others);
  }

  lemma SortedTable(rows: seq<Activity>)
    requires Sessions(rows) || Competitions(rows)
    ensures Ascending(Key(), Sort(Key(), rows)) && multiset(Sort(Key(), rows)) == multiset(rows)
    ensures |Sort(Key(), rows)| == |rows| && forall x :: x in Sort(Key(), rows) <==> x in rows
  {
    OrdersAreStrict();
    RowsComparable(rows);
    SortSorts(Key(), rows);
    SortPermutes(Key(), rows);
    forall x ensures x in Sort(Key(), rows) <==> x in rows {
      SameMembers(Sort(Key(), rows), rows, x);
    }
  }

  predicate AllFetched(sessions: seq<Activity>, competitions: seq<Activity>, limit: nat) {
    var full := Merged(sessions, competitions);
    forall i | 0 <= i < Min(limit, |full|) :: full[i] in Fetch(sessions, limit) + Fetch(competitions, limit)
  }

  lemma FetchedIsCovered(sessions: seq<Activity>, competitions: seq<Activity>, limit: nat)
    requires Sessions(sessions) && Competitions(competitions) && AllFetched(sessions, competitions, limit)
    ensures Covers(sessions, 0, limit) && Covers(competitions, |sessions|, limit)
  {
    var some, others := Sort(Key(), sessions), Sort(Key(), competitions);
    var full := Merged(sessions, competitions);
    MergedIsSplit(sessions, competitions);
    SortedTable(sessions);
    SortedTable(competitions);
    FetchedRows(sessions, limit);
    FetchedRows(competitions, limit);
    forall i | 0 <= i < |some| && i < limit ensures some[i] in Fetch(sessions, limit) {
      assert full[i] == some[i] && some[i] in sessions && some[i] !in Fetch(competitions, limit);
    }
    forall j | 0 <= j < |others| && |sessions| + j < limit ensures others[j] in Fetch(competitions, limit) {
      assert full[|sessions| + j] == others[j] && others[j] in competitions && others[j] !in Fetch(sessions, limit);
    }
  }

  /** The rows up to the limit are fetched exactly when each query covers its part of them. */
  lemma CoveredIsFetched(sessions: seq<Activity>, competitions: seq<Activity>, limit: nat)
    requires Sessions(sessions) && Competitions(competitions)
    ensures AllFetched(sessions, competitions, limit) <==>
            Covers(sessions, 0, limit) && Covers(competitions, |sessions|, limit)
  {
    MergedIsSplit(sessions, competitions);
    if AllFetched(sessions, competitions, limit) {
      FetchedIsCovered(sessions, competitions, limit);
    }
  }

  /** The page equals the slice of the fully merged list exactly when each query covers its part of it. */
  lemma PageExact(sessions: seq<Activity>, competitions: seq<Activity>, start: nat, size: nat)
    requires Sessions(sessions) && Competitions(competitions) && size >= 1
    ensures var limit := start + size;
            Slice(Merged(Fetch(sessions, limit), Fetch(competitions, limit)), start, size)
            == Slice(Merged(sessions, competitions), start, size)
            <==> PageFetched(sessions, competitions, start, size)
  {
    var limit := start + size;
    var full, part := Merged(sessions, competitions), Merged(Fetch(sessions, limit), Fetch(competitions, limit));
    FetchedPart(sessions, competitions, limit);
    FetchedMembers(sessions, competitions, limit);
    MergedFacts(sessions, competitions);
    CoveredIsFetched(sessions, competitions, limit);
    if start < |full| {
      SliceExact(part, full, start, size);
    }
  }

  lemma SliceExact(part: seq<Activity>, full: seq<Activity>, start: nat, size: nat)
    requires Ascending(Key(), part) && Ascending(Key(), full) && forall x | x in part :: x in full
    requires start < |full| && size >= 1
    ensures Slice(part, start, size) == Slice(full, start, size)
            <==> forall i | 0 <= i < Min(start + size, |full|) :: full[i] in part
  {
    var k := Min(start + size, |full|);
    OrdersAreStrict();
    if forall i | 0 <= i < k :: full[i] in part {
      CommonPrefix(Key(), part, full, k);
      SamePrefixSameSlice(part, full, start, size);
    }
    if Slice(part, start, size) == Slice(full, start, size) {
      assert Slice(full, start, size)[0] == full[start];
      assert Slice(part, start, size)[0] == part[start];
      SamePlaceSamePrefix(Key(), part, full, start);
      forall i | start <= i < k ensures full[i] in part {
        assert Slice(full, start, size)[i - start] == full[i] && Slice(part, start, size)[i - start] == part[i];
      }
    }
  }

  lemma SamePrefixSameSlice(part: seq<Activity>, full: seq<Activity>, start: nat, size: nat)
    requires start < |full| && Ascending(Key(), part) && Ascending(Key(), full) && forall x | x in part :: x in full
    requires var k := Min(start + size, |full|); k <= |part| && part[..k] == full[..k]
    ensures Slice(part, start, size) == Slice(full, start, size)
  {
    var k := Min(start + size, |full|);
    OrdersAreStrict();
    AscendingCardinality(Key(), part);
    AscendingCardinality(Key(), full);
    SubsetCardinality(Elements(part), Elements(full));
    assert Slice(part, start, size) == part[..k][start..] && Slice(full, start, size) == full[..k][start..];
  }

  /* ---- All pages ---- */

  predicate ExactPage(sessions: seq<Activity>, competitions: seq<Activity>, page: nat, size: nat)
    requires page >= 1
  {
    var start, limit := (page - 1) * size, page * size;
    Slice(Merged(Fetch(sessions, limit), Fetch(competitions, limit)), start, size)
    == Slice(Merged(sessions, competitions), start, size)
  }

  /** The query never falls behind: as soon as a row's place by the merge key is within the limit, the row is fetched. */
  predicate KeepsUp(rows: seq<Activity>, offset: nat) {
    forall i | 0 <= i < |Sort(Key(), rows)| :: Sort(Key(), rows)[i] in Fetch(rows, offset + i + 1)
  }

  lemma KeepsUpCovers(rows: seq<Activity>, offset: nat, limit: nat)
    requires KeepsUp(rows, offset)
    ensures Covers(rows, offset, limit)
  {
    forall i | 0 <= i < |Sort(Key(), rows)| && offset + i < limit ensures Sort(Key(), rows)[i] in Fetch(rows, limit) {
      assert Fetch(rows, offset + i + 1) <= Fetch(rows, limit);
    }
  }

  lemma PageIsExact(sessions: seq<Activity>, competitions: seq<Activity>, page: nat, size: nat)
    requires Sessions(sessions) && Competitions(competitions) && page >= 1 && size >= 1
    ensures ExactPage(sessions, competitions, page, size) <==> PageFetched(sessions, competitions, (page - 1) * size, size)
  {
    assert (page - 1) * size + size == page * size;
    PageExact(sessions, competitions, (page - 1) * size, size);
  }

  /** Pages of one item show every row in its place only if each query keeps up. */
  lemma SinglePagesNeed(sessions: seq<Activity>, competitions: seq<Activity>)
    requires Sessions(sessions) && Competitions(competitions)
    requires forall page | page >= 1 :: ExactPage(sessions, competitions, page, 1)
    ensures KeepsUp(sessions, 0) && KeepsUp(competitions, |sessions|)
  {
    SortedTable(sessions);
    SortedTable(competitions);
    forall i | 0 <= i < |sessions| ensures Sort(Key(), sessions)[i] in Fetch(sessions, i + 1) {
      assert ExactPage(sessions, competitions, i + 1, 1);
      PageIsExact(sessions, competitions, i + 1, 1);
      assert Covers(sessions, 0, i + 1);
    }
    forall j | 0 <= j < |competitions| ensures Sort(Key(), competitions)[j] in Fetch(competitions, |sessions| + j + 1) {
      assert ExactPage(sessions, competitions, |sessions| + j + 1, 1);
      PageIsExact(sessions, competitions, |sessions| + j + 1, 1);
      assert Covers(competitions, |sessions|, |sessions| + j + 1);
    }
  }

  /** Every page of every size is exact if and only if the i-th session by the merge key is always among the first i rows
      of its query, and the j-th competition among as many rows as there are sessions and j more. */
  lemma AllPagesExact(sessions: seq<Activity>, competitions: seq<Activity>)
    requires Sessions(sessions) && Competitions(competitions)
    ensures (forall page, size | page >= 1 && size >= 1 :: ExactPage(sessions, competitions, page, size))
            <==> KeepsUp(sessions, 0) && KeepsUp(competitions, |sessions|)
  {
    if forall page, size | page >= 1 && size >= 1 :: ExactPage(sessions, competitions, page, size) {
      SinglePagesNeed(sessions, competitions);
    }
    if KeepsUp(sessions, 0) && KeepsUp(competitions, |sessions|) {
      forall page: nat, size: nat | page >= 1 && size >= 1 ensures ExactPage(sessions, competitions, page, size) {
        KeepsUpCovers(sessions, 0, (page - 1) * size + size);
        KeepsUpCovers(competitions, |sessions|, (page - 1) * size + size);
        PageIsExact(sessions, competitions, page, size);
      }
    }
  }

  /* ---- When the query order agrees with the merge key ---- */

  predicate Agrees(rows: seq<Activity>) {
    forall x, y | x in rows && y in rows :: QueryLess(x, y) <==> KeyLess(x, y)
  }

  /** Sessions with distinct start times, or competitions created in title order, agree. */
  lemma AgreeingTables(rows: seq<Activity>)
    requires Sessions(rows) || Competitions(rows)
    requires Sessions(rows) ==> forall x, y | x in rows && y in rows && x.start == y.start :: x == y
    requires Competitions(rows) ==> forall x, y | x in rows && y in rows ::
      (x.created < y.created <==> x.title < y.title) && (x.created == y.created <==> x.title == y.title)
    ensures Agrees(rows)
  {}

  lemma FetchedByKey(rows: seq<Activity>, limit: nat)
    requires (Sessions(rows) || Competitions(rows)) && Agrees(rows)
    ensures Fetch(rows, limit) == Take(Sort(Key(), rows), limit)
  {
    OrdersAreStrict();
    RowsComparable(rows);
    SortSorts(Key(), rows);
    SortSorts(Query(), rows);
    SortPermutes(Key(), rows);
    SortPermutes(Query(), rows);
    var byKey, byQuery := Sort(Key(), rows), Sort(Query(), rows);
    forall i, j | 0 <= i < j < |byQuery| ensures Key()(byQuery[i], byQuery[j]) {
      SameMembers(byQuery, rows, byQuery[i]);
      SameMembers(byQuery, rows, byQuery[j]);
      assert Query()(byQuery[i], byQuery[j]);
    }
    AscendingUnique(Key(), byKey, byQuery);
  }

  lemma AgreeingKeepsUp(rows: seq<Activity>, offset: nat)
    requires (Sessions(rows) || Competitions(rows)) && Agrees(rows)
    ensures KeepsUp(rows, offset)
  {
    forall i | 0 <= i < |Sort(Key(), rows)| ensures Sort(Key(), rows)[i] in Fetch(rows, offset + i + 1) {
      FetchedByKey(rows, offset + i + 1);
      assert Take(Sort(Key(), rows), offset + i + 1)[i] == Sort(Key(), rows)[i];
    }
  }

  /** With agreeing orders every page is exactly the slice of the fully merged list. */
  lemma PagesRefineMergedList(sessions: seq<Activity>, competitions: seq<Activity>, page: nat, size: nat)
    requires Sessions(sessions) && Competitions(competitions) && Agrees(sessions) && Agrees(competitions)
    requires page >= 1 && size >= 1
    ensures ExactPage(sessions, competitions, page, size)
  {
    AgreeingKeepsUp(sessions, 0);
    AgreeingKeepsUp(competitions, |sessions|);
    AllPagesExact(sessions, competitions);
  }

  /** Up to one competition more than there are sessions, the competitions may have been created in any order. */
  lemma FewCompetitions(sessions: seq<Activity>, competitions: seq<Activity>)
    requires Sessions(sessions) && Competitions(competitions) && Agrees(sessions) && |competitions| <= |sessions| + 1
    ensures forall page, size | page >= 1 && size >= 1 :: ExactPage(sessions, competitions, page, size)
  {
    AgreeingKeepsUp(sessions, 0);
    SortedTable(competitions);
    SortPermutes(Query(), competitions);
    forall j | 0 <= j < |competitions| ensures Sort(Key(), competitions)[j] in Fetch(competitions, |sessions| + j + 1) {
      assert Fetch(competitions, |sessions| + j + 1) == Sort(Query(), competitions);
      SameMembers(Sort(Query(), competitions), competitions, Sort(Key(), competitions)[j]);
    }
    AllPagesExact(sessions, competitions);
  }

  /** The orders need not agree: with one session, two competitions created against their title order are harmless. */
  lemma DisagreeingCanBeExact(session: Activity)
    requires session.Session?
    ensures var rows := [Competition(1, 20, 0), Competition(2, 10, 1)];
      !Agrees(rows) && forall page, size | page >= 1 && size >= 1 :: ExactPage([session], rows, page, size)
  {
    var a, b := Competition(1, 20, 0), Competition(2, 10, 1);
    assert a in [a, b] && b in [a, b] && QueryLess(a, b) && !KeyLess(a, b);
    FewCompetitions([session], [a, b]);
  }

  lemma FirstIsHidden()
    ensures !Covers([Competition(1, 20, 0), Competition(2, 10, 1)], 0, 1)
  {
    var a, b := Competition(1, 20, 0), Competition(2, 10, 1);
    var rows := [a, b];
    assert rows[1..] == [b] && [b][1..] == [];
    assert Sort(Query(), rows) == [a, b] by {
      assert Sort(Query(), [b]) == [b];
    }
    assert Fetch(rows, 1) == [a] && b !in [a];
    assert Sort(Key(), rows) == [b, a] by {
      assert [a] + [] == [a] && Insert(Key(), a, [b][1..]) == [a];
      assert Sort(Key(), [b]) == [b];
    }
    assert Sort(Key(), rows)[0] == b;
  }

  /** Two competitions created against their title order: the first page of one item shows the wrong one. */
  lemma CreationOrderCanHideRows()
    ensures !ExactPage([], [Competition(1, 20, 0), Competition(2, 10, 1)], 1, 1)
  {
    FirstIsHidden();
    PageIsExact([], [Competition(1, 20, 0), Competition(2, 10, 1)], 1, 1);
  }
}
