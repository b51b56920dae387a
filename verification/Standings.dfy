/** The table of a competition, computed from its completed matches. */
module Standings {
  import opened Common
  import opened Sorting

  type Id = nat

  datatype Match = Match(a: Option<Id>, b: Option<Id>, winner: Option<Id>, draw: bool, scoreA: Option<int>, scoreB: Option<int>)
  datatype Row = Row(entry: Id, played: int, wins: int, losses: int, draws: int, points: int, scoreFor: int, scoreAgainst: int)
  datatype Ranked = Ranked(row: Row, position: nat, difference: int)

  function Score(s: Option<int>): int {
    if s.Some? then s.value else 0
  }

  predicate Distinct(entries: seq<Id>) {
    forall i, j | 0 <= i < j < |entries| :: entries[i] != entries[j]
  }

  /** Matches with a participant outside the table are skipped. */
  predicate Counted(entries: seq<Id>, m: Match) {
    m.a.Some? && m.b.Some? && m.a.value in entries && m.b.value in entries
  }

  predicate WonByA(m: Match) {
    !m.draw && m.winner == m.a
  }

  predicate WonByB(m: Match) {
    !m.draw && m.winner != m.a && m.winner == m.b
  }

  predicate Decisive(m: Match) {
    WonByA(m) || WonByB(m)
  }

  /* ---- The table entry by entry ---- */

  function Zero(e: Id): Row {
    Row(e, 0, 0, 0, 0, 0, 0, 0)
  }

  function Add(r: Row, s: Row): Row {
    Row(r.entry, r.played + s.played, r.wins + s.wins, r.losses + s.losses, r.draws + s.draws, r.points + s.points,
        r.scoreFor + s.scoreFor, r.scoreAgainst + s.scoreAgainst)
  }

  function Bit(b: bool): int {
    if b then 1 else 0
  }

  /** What a match is worth to its first side x times and to its second side y times. */
  function Worth(e: Id, m: Match, x: int, y: int): Row {
    var drawn, a, b := Bit(m.draw), Bit(WonByA(m)), Bit(WonByB(m));
    Row(e, x + y, x * a + y * b, x * b + y * a, (x + y) * drawn, (x + y) * drawn + 3 * (x * a + y * b),
        x * Score(m.scoreA) + y * Score(m.scoreB), x * Score(m.scoreB) + y * Score(m.scoreA))
  }

  lemma WorthOfSides(e: Id, m: Match, p: bool, q: bool)
    ensures Worth(e, m, Bit(p), Bit(q)) == Row(e, Bit(p) + Bit(q),
      Bit(p && WonByA(m)) + Bit(q && WonByB(m)), Bit(p && WonByB(m)) + Bit(q && WonByA(m)),
      Bit(p && m.draw) + Bit(q && m.draw),
      Bit(p && m.draw) + Bit(q && m.draw) + (if p && WonByA(m) then 3 else 0) + (if q && WonByB(m) then 3 else 0),
      (if p then Score(m.scoreA) else 0) + (if q then Score(m.scoreB) else 0),
      (if p then Score(m.scoreB) else 0) + (if q then Score(m.scoreA) else 0))
  {}

  function Contribution(e: Id, entries: seq<Id>, m: Match): Row {
    if Counted(entries, m) then Worth(e, m, Bit(m.a == Some(e)), Bit(m.b == Some(e))) else Zero(e)
  }

  /** The row of one entry: the sum of what each match contributes to it. */
  function Tally(e: Id, entries: seq<Id>, matches: seq<Match>): Row {
    if matches == [] then Zero(e)
    else Add(Tally(e, entries, matches[..|matches| - 1]), Contribution(e, entries, matches[|matches| - 1]))
  }

  lemma TallyNext(e: Id, entries: seq<Id>, matches: seq<Match>, k: nat)
    requires k < |matches|
    ensures Tally(e, entries, matches[..k + 1]) == Add(Tally(e, entries, matches[..k]), Contribution(e, entries, matches[k]))
  {
    assert matches[..k + 1][..k] == matches[..k];
  }

  function TallyRows(entries: seq<Id>, matches: seq<Match>): seq<Row> {
    seq(|entries|, i requires 0 <= i < |entries| => Tally(entries[i], entries, matches))
  }

  /** Points, then difference, then score, all descending; then the entry id. */
  predicate Above(r: Row, s: Row) {
    if r.points != s.points then r.points > s.points
    else if r.scoreFor - r.scoreAgainst != s.scoreFor - s.scoreAgainst then r.scoreFor - r.scoreAgainst > s.scoreFor - s.scoreAgainst
    else if r.scoreFor != s.scoreFor then r.scoreFor > s.scoreFor
    else r.entry < s.entry
  }

  function Order(): (Row, Row) -> bool {
    (r, s) => Above(r, s)
  }

  function Rank(rows: seq<Row>): seq<Ranked> {
    seq(|rows|, i requires 0 <= i < |rows| => Ranked(rows[i], i + 1, rows[i].scoreFor - rows[i].scoreAgainst))
  }

  function StandingsOf(entries: seq<Id>, matches: seq<Match>): seq<Ranked> {
    Rank(Sort(Order(), TallyRows(entries, matches)))
  }

  /** Positions from 1, more points first, then the larger difference, then the larger score, then the smaller id. */
  predicate InRankOrder(result: seq<Ranked>) {
    && (forall i | 0 <= i < |result| ::
          result[i].position == i + 1 && result[i].difference == result[i].row.scoreFor - result[i].row.scoreAgainst)
    && (forall i, j | 0 <= i < j < |result| :: result[i].row.points >= result[j].row.points)
    && (forall i, j | 0 <= i < j < |result| && result[i].row.points == result[j].row.points ::
          result[i].difference >= result[j].difference)
    && (forall i, j | 0 <= i < j < |result| && result[i].row.points == result[j].row.points
          && result[i].difference == result[j].difference :: result[i].row.scoreFor >= result[j].row.scoreFor)
    && (forall i, j | 0 <= i < j < |result| && result[i].row.points == result[j].row.points
          && result[i].difference == result[j].difference && result[i].row.scoreFor == result[j].row.scoreFor ::
          result[i].row.entry < result[j].row.entry)
  }

  /* ---- The service ---- */

  /** Increments the two rows of each counted match, then sorts the rows and numbers them. */
  method ComputeStandings(entries: seq<Id>, matches: seq<Match>) returns (result: seq<Ranked>)
    requires Distinct(entries)
    ensures result == StandingsOf(entries, matches) && InRankOrder(result)
  {
    var table: map<Id, Row> := map e | e in entries :: Zero(e);
    for k := 0 to |matches|
      invariant table.Keys == set e | e in entries
      invariant forall e | e in entries :: table[e] == Tally(e, entries, matches[..k])
    {
      var m := matches[k];
      if m.a.Some? && m.b.Some? && m.a.value in table && m.b.value in table {
        forall e | e in entries ensures table[e].entry == e {
          TallyEntry(e, entries, matches[..k]);
        }
        table := ApplyMatch(entries, table, m);
      }
      forall e | e in entries ensures table[e] == Tally(e, entries, matches[..k + 1]) {
        TallyNext(e, entries, matches, k);
      }
    }
    assert matches[..|matches|] == matches;
    var rows := seq(|entries|, i requires 0 <= i < |entries| && entries[i] in table => table[entries[i]]);
    assert rows == TallyRows(entries, matches);
    result := Rank(Sort(Order(), rows));
    StandingsRank(entries, matches);
  }

  /** The increments for one counted match; both sides may be the same row. */
  method ApplyMatch(entries: seq<Id>, table0: map<Id, Row>, m: Match) returns (table: map<Id, Row>)
    requires Counted(entries, m) && table0.Keys == set e | e in entries
    requires forall e | e in entries :: table0[e].entry == e
    ensures table.Keys == table0.Keys
    ensures forall e | e in entries :: table[e] == Add(table0[e], Contribution(e, entries, m))
  {
    var a, b := m.a.value, m.b.value;
    table := ApplyScores(table0, a, b, Score(m.scoreA), Score(m.scoreB));
    table := ApplyResult(table, m);
    forall e | e in entries ensures table[e] == Add(table0[e], Contribution(e, entries, m)) {
      ScoredAndResulted(table0[e], m, e == a, e == b);
    }
  }

  function Scored(r: Row, p: bool, q: bool, sa: int, sb: int): Row {
    r.(played := r.played + Bit(p) + Bit(q),
       scoreFor := r.scoreFor + (if p then sa else 0) + (if q then sb else 0),
       scoreAgainst := r.scoreAgainst + (if p then sb else 0) + (if q then sa else 0))
  }

  method ApplyScores(table0: map<Id, Row>, a: Id, b: Id, sa: int, sb: int) returns (table: map<Id, Row>)
    requires a in table0 && b in table0
    ensures table.Keys == table0.Keys
    ensures forall e | e in table0 :: table[e] == Scored(table0[e], e == a, e == b, sa, sb)
  {
    table := table0;
    table := table[a := table[a].(played := table[a].played + 1)];
    table := table[b := table[b].(played := table[b].played + 1)];
    table := table[a := table[a].(scoreFor := table[a].scoreFor + sa, scoreAgainst := table[a].scoreAgainst + sb)];
    table := table[b := table[b].(scoreFor := table[b].scoreFor + sb, scoreAgainst := table[b].scoreAgainst + sa)];
  }

  function Resulted(r: Row, m: Match, p: bool, q: bool): Row {
    r.(wins := r.wins + Bit(p && WonByA(m)) + Bit(q && WonByB(m)),
       losses := r.losses + Bit(p && WonByB(m)) + Bit(q && WonByA(m)),
       draws := r.draws + Bit(p && m.draw) + Bit(q && m.draw),
       points := r.points + Bit(p && m.draw) + Bit(q && m.draw)
                 + (if p && WonByA(m) then 3 else 0) + (if q && WonByB(m) then 3 else 0))
  }

  lemma ScoredAndResulted(r: Row, m: Match, p: bool, q: bool)
    ensures Resulted(Scored(r, p, q, Score(m.scoreA), Score(m.scoreB)), m, p, q) == Add(r, Worth(r.entry, m, Bit(p), Bit(q)))
  {
    WorthOfSides(r.entry, m, p, q);
  }

  method ApplyResult(table0: map<Id, Row>, m: Match) returns (table: map<Id, Row>)
    requires m.a.Some? && m.b.Some? && m.a.value in table0 && m.b.value in table0
    ensures table.Keys == table0.Keys
    ensures forall e | e in table0 :: table[e] == Resulted(table0[e], m, e == m.a.value, e == m.b.value)
  {
    table := table0;
    var a, b := m.a.value, m.b.value;
    if m.draw {
      table := table[a := table[a].(draws := table[a].draws + 1)];
      table := table[b := table[b].(draws := table[b].draws + 1)];
      table := table[a := table[a].(points := table[a].points + 1)];
      table := table[b := table[b].(points := table[b].points + 1)];
    } else if m.winner == m.a {
      table := table[a := table[a].(wins := table[a].wins + 1)];
      table := table[b := table[b].(losses := table[b].losses + 1)];
      table := table[a := table[a].(points := table[a].points + 3)];
    } else if m.winner == m.b {
      table := table[b := table[b].(wins := table[b].wins + 1)];
      table := table[a := table[a].(losses := table[a].losses + 1)];
      table := table[b := table[b].(points := table[b].points + 3)];
    }
  }

  /* ---- The ranking ---- */

  lemma OrderIsStrict()
    ensures StrictOrder(Order())
  {}

  lemma {:induction false} TallyEntry(e: Id, entries: seq<Id>, matches: seq<Match>)
    ensures Tally(e, entries, matches).entry == e
  {
    if matches != [] {
      TallyEntry(e, entries, matches[..|matches| - 1]);
    }
  }

  lemma RowsComparable(entries: seq<Id>, matches: seq<Match>)
    requires Distinct(entries)
    ensures Comparable(Order(), TallyRows(entries, matches))
  {
    forall i | 0 <= i < |entries| ensures TallyRows(entries, matches)[i].entry == entries[i] {
      TallyEntry(entries[i], entries, matches);
    }
  }

  /** The rows are a strictly ordered permutation of the entries' tallies, numbered from 1. */
  lemma StandingsRank(entries: seq<Id>, matches: seq<Match>)
    requires Distinct(entries)
    ensures var result := StandingsOf(entries, matches);
      && |result| == |entries|
      && (forall i | 0 <= i < |result| :: result[i].position == i + 1
            && result[i].row.entry in entries && result[i].row == Tally(result[i].row.entry, entries, matches)
            && result[i].difference == result[i].row.scoreFor - result[i].row.scoreAgainst)
      && (forall i, j | 0 <= i < j < |result| :: Above(result[i].row, result[j].row))
      && InRankOrder(result)
      && (forall e | e in entries :: exists i :: 0 <= i < |result| && result[i].row.entry == e)
  {
    var rows := TallyRows(entries, matches);
    var sorted := Sort(Order(), rows);
    OrderIsStrict();
    RowsComparable(entries, matches);
    SortSorts(Order(), rows);
    SortPermutes(Order(), rows);
    forall i | 0 <= i < |sorted| ensures sorted[i].entry in entries && sorted[i] == Tally(sorted[i].entry, entries, matches) {
      SameMembers(sorted, rows, sorted[i]);
      TallyRowOf(entries, matches, sorted[i]);
    }
    forall e | e in entries ensures exists i :: 0 <= i < |sorted| && StandingsOf(entries, matches)[i].row.entry == e {
      TallyEntry(e, entries, matches);
      assert Tally(e, entries, matches) in rows by {
        var j :| 0 <= j < |entries| && entries[j] == e;
        assert rows[j] == Tally(e, entries, matches);
      }
      SameMembers(sorted, rows, Tally(e, entries, matches));
      var i :| 0 <= i < |sorted| && sorted[i] == Tally(e, entries, matches);
      assert StandingsOf(entries, matches)[i].row.entry == e;
    }
    forall i, j | 0 <= i < j < |sorted| ensures Above(sorted[i], sorted[j]) {
      assert Order()(sorted[i], sorted[j]);
    }
  }

  lemma TallyRowOf(entries: seq<Id>, matches: seq<Match>, row: Row)
    requires row in TallyRows(entries, matches)
    ensures row.entry in entries && row == Tally(row.entry, entries, matches)
  {
    var j :| 0 <= j < |entries| && TallyRows(entries, matches)[j] == row;
    TallyEntry(entries[j], entries, matches);
  }

  /* ---- Order of the matches ---- */

  lemma WithoutInner<T>(s: seq<T>, k: nat)
    requires k < |s| - 1
    ensures var init, rest := s[..|s| - 1], s[..k] + s[k + 1..];
      rest != [] && rest[..|rest| - 1] == init[..k] + init[k + 1..] && rest[|rest| - 1] == s[|s| - 1] && init[k] == s[k]
  {
    var init, rest := s[..|s| - 1], s[..k] + s[k + 1..];
    forall j | 0 <= j < |rest| - 1 ensures rest[j] == (init[..k] + init[k + 1..])[j] {}
  }

  lemma AddLater(a: Row, b: Row, c: Row)
    ensures Add(Add(a, b), c) == Add(Add(a, c), b)
  {}

  lemma {:induction false} TallyWithout(e: Id, entries: seq<Id>, matches: seq<Match>, k: nat)
    requires k < |matches|
    ensures Tally(e, entries, matches) == Add(Tally(e, entries, matches[..k] + matches[k + 1..]), Contribution(e, entries, matches[k]))
  {
    var init, last := matches[..|matches| - 1], matches[|matches| - 1];
    if k == |matches| - 1 {
      assert matches[..k] + matches[k + 1..] == init;
    } else {
      TallyWithout(e, entries, init, k);
      WithoutInner(matches, k);
      AddLater(Tally(e, entries, init[..k] + init[k + 1..]), Contribution(e, entries, matches[k]), Contribution(e, entries, last));
    }
  }

  lemma {:induction false} TallyIgnoresOrder(e: Id, entries: seq<Id>, matches: seq<Match>, other: seq<Match>)
    requires multiset(matches) == multiset(other)
    ensures Tally(e, entries, matches) == Tally(e, entries, other)
    decreases |matches|
  {
    if matches == [] {
      assert |multiset(other)| == 0;
    } else {
      var init, last := matches[..|matches| - 1], matches[|matches| - 1];
      assert matches == init + [last];
      assert last in multiset(other);
      var k :| 0 <= k < |other| && other[k] == last;
      TallyWithout(e, entries, other, k);
      RemoveAt(other, k);
      RemoveAt(matches, |matches| - 1);
      assert matches[..|matches| - 1] + matches[|matches|..] == init;
      TallyIgnoresOrder(e, entries, init, other[..k] + other[k + 1..]);
    }
  }

  /** The standings are the same for every order of the matches. */
  lemma StandingsIgnoreOrder(entries: seq<Id>, matches: seq<Match>, other: seq<Match>)
    requires multiset(matches) == multiset(other)
    ensures StandingsOf(entries, matches) == StandingsOf(entries, other)
  {
    forall i | 0 <= i < |entries| ensures TallyRows(entries, matches)[i] == TallyRows(entries, other)[i] {
      TallyIgnoresOrder(entries[i], entries, matches, other);
    }
    assert TallyRows(entries, matches) == TallyRows(entries, other);
  }

  /** The rows of some of the entries. */
  function PartRows(part: seq<Id>, entries: seq<Id>, matches: seq<Match>): seq<Row> {
    seq(|part|, i requires 0 <= i < |part| => Tally(part[i], entries, matches))
  }

  lemma {:induction false} TallyOfSameEntries(e: Id, entries: seq<Id>, other: seq<Id>, matches: seq<Match>)
    requires multiset(entries) == multiset(other)
    ensures Tally(e, entries, matches) == Tally(e, other, matches)
  {
    if matches != [] {
      var m := matches[|matches| - 1];
      TallyOfSameEntries(e, entries, other, matches[..|matches| - 1]);
      if m.a.Some? && m.b.Some? {
        SameMembers(entries, other, m.a.value);
        SameMembers(entries, other, m.b.value);
      }
    }
  }

  lemma RowsWithout(part: seq<Id>, entries: seq<Id>, matches: seq<Match>, k: nat)
    requires k < |part|
    ensures multiset(PartRows(part, entries, matches))
         == multiset(PartRows(part[..k] + part[k + 1..], entries, matches)) + multiset{Tally(part[k], entries, matches)}
  {
    var rows := PartRows(part, entries, matches);
    RemoveAt(rows, k);
    assert rows[..k] + rows[k + 1..] == PartRows(part[..k] + part[k + 1..], entries, matches);
    assert rows[k] in multiset(rows);
  }

  lemma TakeFirst<T>(s: seq<T>, t: seq<T>) returns (k: nat)
    requires multiset(s) == multiset(t) && s != []
    ensures k < |t| && t[k] == s[0] && multiset(s[..0] + s[1..]) == multiset(t[..k] + t[k + 1..])
  {
    SameMembers(s, t, s[0]);
    k :| 0 <= k < |t| && t[k] == s[0];
    RemoveAt(s, 0);
    RemoveAt(t, k);
  }

  lemma {:induction false} RowsIgnoreOrder(part: seq<Id>, other: seq<Id>, entries: seq<Id>, matches: seq<Match>)
    requires multiset(part) == multiset(other)
    ensures multiset(PartRows(part, entries, matches)) == multiset(PartRows(other, entries, matches))
    decreases |part|
  {
    if part == [] {
      NothingMore(other);
    } else {
      var k := TakeFirst(part, other);
      RowsWithout(part, entries, matches, 0);
      RowsWithout(other, entries, matches, k);
      RowsIgnoreOrder(part[..0] + part[1..], other[..k] + other[k + 1..], entries, matches);
    }
  }

  /** Nor do they depend on the order in which the entries are read. */
  lemma StandingsIgnoreEntryOrder(entries: seq<Id>, other: seq<Id>, matches: seq<Match>)
    requires Distinct(entries) && Distinct(other) && multiset(entries) == multiset(other)
    ensures StandingsOf(entries, matches) == StandingsOf(other, matches)
  {
    assert TallyRows(entries, matches) == PartRows(entries, entries, matches);
    forall i | 0 <= i < |other| ensures TallyRows(other, matches)[i] == PartRows(other, entries, matches)[i] {
      TallyOfSameEntries(other[i], entries, other, matches);
    }
    assert TallyRows(other, matches) == PartRows(other, entries, matches);
    RowsIgnoreOrder(entries, other, entries, matches);
    OrderIsStrict();
    RowsComparable(entries, matches);
    RowsComparable(other, matches);
    SortIgnoresOrder(Order(), TallyRows(entries, matches), TallyRows(other, matches));
  }

  /* ---- Conservation ---- */

  function Total(rows: seq<Row>): Row {
    if rows == [] then Zero(0) else Add(Total(rows[..|rows| - 1]), rows[|rows| - 1])
  }

  function CountIf(matches: seq<Match>, p: Match -> bool): nat {
    if matches == [] then 0 else CountIf(matches[..|matches| - 1], p) + (if p(matches[|matches| - 1]) then 1 else 0)
  }

  function TotalWorth(part: seq<Id>, entries: seq<Id>, m: Match): Row {
    if part == [] then Zero(0)
    else Add(TotalWorth(part[..|part| - 1], entries, m), Contribution(part[|part| - 1], entries, m))
  }

  lemma WorthAdds(e: Id, f: Id, m: Match, x1: int, y1: int, x2: int, y2: int)
    ensures Add(Worth(e, m, x1, y1), Worth(f, m, x2, y2)) == Worth(e, m, x1 + x2, y1 + y2)
  {}

  lemma BitOfLast(part: seq<Id>, x: Option<Id>)
    requires Distinct(part) && part != [] && x.Some?
    ensures var init, last := part[..|part| - 1], part[|part| - 1];
      Bit(x.value in part) == Bit(x.value in init) + Bit(x == Some(last))
  {
    var init, last := part[..|part| - 1], part[|part| - 1];
    assert part == init + [last];
    assert last !in init;
  }

  lemma {:induction false} TotalWorthOf(part: seq<Id>, entries: seq<Id>, m: Match)
    requires Distinct(part) && Counted(entries, m)
    ensures TotalWorth(part, entries, m) == Worth(0, m, Bit(m.a.value in part), Bit(m.b.value in part))
  {
    if part != [] {
      var init, last := part[..|part| - 1], part[|part| - 1];
      TotalWorthOf(init, entries, m);
      WorthAdds(0, last, m, Bit(m.a.value in init), Bit(m.b.value in init), Bit(m.a == Some(last)), Bit(m.b == Some(last)));
      BitOfLast(part, m.a);
      BitOfLast(part, m.b);
    }
  }

  lemma {:induction false} TotalWorthOfSkipped(part: seq<Id>, entries: seq<Id>, m: Match)
    requires !Counted(entries, m)
    ensures TotalWorth(part, entries, m) == Zero(0)
  {
    if part != [] {
      TotalWorthOfSkipped(part[..|part| - 1], entries, m);
    }
  }

  lemma AddSwap(a: Row, b: Row, c: Row, d: Row)
    ensures Add(Add(a, b), Add(c, d)) == Add(Add(a, c), Add(b, d))
  {}

  lemma {:induction false} TotalOfOneMore(part: seq<Id>, entries: seq<Id>, matches: seq<Match>)
    requires matches != []
    ensures Total(PartRows(part, entries, matches))
         == Add(Total(PartRows(part, entries, matches[..|matches| - 1])), TotalWorth(part, entries, matches[|matches| - 1]))
  {
    if part != [] {
      var init, last := part[..|part| - 1], part[|part| - 1];
      var before, m := matches[..|matches| - 1], matches[|matches| - 1];
      TotalOfOneMore(init, entries, matches);
      TotalSplit(part, entries, matches);
      TotalSplit(part, entries, before);
      AddSwap(Total(PartRows(init, entries, before)), TotalWorth(init, entries, m),
              Tally(last, entries, before), Contribution(last, entries, m));
    }
  }

  lemma TotalSplit(part: seq<Id>, entries: seq<Id>, matches: seq<Match>)
    requires part != []
    ensures Total(PartRows(part, entries, matches))
         == Add(Total(PartRows(part[..|part| - 1], entries, matches)), Tally(part[|part| - 1], entries, matches))
  {
    assert PartRows(part, entries, matches)[..|part| - 1] == PartRows(part[..|part| - 1], entries, matches);
  }

  lemma {:induction false} TotalOfNothing(part: seq<Id>, entries: seq<Id>)
    ensures Total(PartRows(part, entries, [])) == Zero(0)
  {
    if part != [] {
      TotalOfNothing(part[..|part| - 1], entries);
      assert PartRows(part, entries, [])[..|part| - 1] == PartRows(part[..|part| - 1], entries, []);
    }
  }

  function CountedMatch(entries: seq<Id>): Match -> bool {
    m => Counted(entries, m)
  }

  function DecisiveMatch(entries: seq<Id>): Match -> bool {
    m => Counted(entries, m) && Decisive(m)
  }

  function DrawnMatch(entries: seq<Id>): Match -> bool {
    m => Counted(entries, m) && m.draw
  }

  /** Conservation over the whole table: every win is someone's loss, every counted match is played twice, differences
      cancel out, and points are 3 per decisive and 2 per drawn match. */
  lemma {:induction false} Conservation(entries: seq<Id>, matches: seq<Match>)
    requires Distinct(entries)
    ensures var total := Total(TallyRows(entries, matches));
      && total.wins == total.losses == CountIf(matches, DecisiveMatch(entries))
      && total.played == 2 * CountIf(matches, CountedMatch(entries))
      && total.draws == 2 * CountIf(matches, DrawnMatch(entries))
      && total.scoreFor == total.scoreAgainst
      && total.points == 3 * CountIf(matches, DecisiveMatch(entries)) + 2 * CountIf(matches, DrawnMatch(entries))
  {
    assert TallyRows(entries, matches) == PartRows(entries, entries, matches);
    if matches == [] {
      TotalOfNothing(entries, entries);
    } else {
      var init, last := matches[..|matches| - 1], matches[|matches| - 1];
      Conservation(entries, init);
      assert TallyRows(entries, init) == PartRows(entries, entries, init);
      TotalOfOneMore(entries, entries, matches);
      if Counted(entries, last) {
        TotalWorthOf(entries, entries, last);
      } else {
        TotalWorthOfSkipped(entries, entries, last);
      }
    }
  }

  /* ---- The columns of a row ---- */

  function Sum(matches: seq<Match>, f: Match -> int): int {
    if matches == [] then 0 else Sum(matches[..|matches| - 1], f) + f(matches[|matches| - 1])
  }

  /** Both participants are entries of the table. */
  function Plays(entries: seq<Id>, e: Id, first: bool): Match -> bool {
    (m: Match) => m.a.Some? && m.b.Some? && m.a.value in entries && m.b.value in entries
      && (if first then m.a.value == e else m.b.value == e)
  }

  function Wins(entries: seq<Id>, e: Id): Match -> bool {
    (m: Match) => (Plays(entries, e, true)(m) || Plays(entries, e, false)(m)) && !m.draw && m.winner == Some(e)
  }

  /** The other side, or the entry itself as the other side, wins. */
  function Loses(entries: seq<Id>, e: Id): Match -> bool {
    (m: Match) => !m.draw && m.winner.Some?
      && ((Plays(entries, e, false)(m) && m.winner == m.a)
          || (Plays(entries, e, true)(m) && m.winner == m.b && m.winner != m.a))
  }

  function DrawsAs(entries: seq<Id>, e: Id, first: bool): Match -> bool {
    (m: Match) => Plays(entries, e, first)(m) && m.draw
  }

  /** What the entry's side scored, or the other one; a missing score counts nothing. */
  function ScoreIn(entries: seq<Id>, e: Id, first: bool, own: bool): Match -> int {
    (m: Match) =>
      var score := if first == own then m.scoreA else m.scoreB;
      if Plays(entries, e, first)(m) && score.Some? then score.value else 0
  }

  ghost predicate Columns(r: Row, e: Id, entries: seq<Id>, matches: seq<Match>) {
    && r.entry == e
    && r.played == CountIf(matches, Plays(entries, e, true)) + CountIf(matches, Plays(entries, e, false))
    && r.wins == CountIf(matches, Wins(entries, e)) && r.losses == CountIf(matches, Loses(entries, e))
    && r.draws == CountIf(matches, DrawsAs(entries, e, true)) + CountIf(matches, DrawsAs(entries, e, false))
    && r.points == 3 * r.wins + r.draws
    && r.scoreFor == Sum(matches, ScoreIn(entries, e, true, true)) + Sum(matches, ScoreIn(entries, e, false, true))
    && r.scoreAgainst == Sum(matches, ScoreIn(entries, e, true, false)) + Sum(matches, ScoreIn(entries, e, false, false))
  }

  lemma ContributionColumns(e: Id, entries: seq<Id>, m: Match)
    requires e in entries
    ensures Columns(Contribution(e, entries, m), e, entries, [m])
  {
    WorthOfSides(e, m, m.a == Some(e), m.b == Some(e));
    assert [m][..0] == [];
  }

  /** The row of an entry counts its matches, wins, losses and draws, and sums its scores. */
  lemma {:induction false} TallyColumns(e: Id, entries: seq<Id>, matches: seq<Match>)
    requires e in entries
    ensures Columns(Tally(e, entries, matches), e, entries, matches)
  {
    if matches != [] {
      TallyColumns(e, entries, matches[..|matches| - 1]);
      ContributionColumns(e, entries, matches[|matches| - 1]);
    }
  }
}
