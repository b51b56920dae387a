/** Recommended participants: scored once in the query that orders them and again for the page that shows them. */
module Matchmaking {
  import opened Common
  import opened Sorting

  type Id = nat
  type User = nat
  type Competition = nat

  datatype Profile = Profile(id: Id, user: User, interests: seq<string>, skills: seq<string>,
                             organization: Option<string>, designation: Option<string>)
  /** A registration for the event; only active ones are looked at. */
  datatype Registration = Registration(user: User, kind: string, active: bool)
  /** What is known of the viewer and of the event. */
  datatype Context = Context(own: Profile, registrations: seq<Registration>, entered: map<User, set<Competition>>)

  function Members(values: seq<string>): set<string> {
    set v | v in values
  }

  function Entered(c: Context, user: User): set<Competition> {
    if user in c.entered then c.entered[user] else {}
  }

  /** The empty text counts as no value. */
  predicate Given(value: Option<string>) {
    value.Some? && value.value != ""
  }

  /** The first active registration of the viewer decides its type. */
  function OwnKind(registrations: seq<Registration>, user: User): Option<string> {
    if registrations == [] then None
    else if registrations[0].active && registrations[0].user == user then Some(registrations[0].kind)
    else OwnKind(registrations[1..], user)
  }

  predicate HasKind(registrations: seq<Registration>, user: User, kind: string) {
    exists i | 0 <= i < |registrations| :: registrations[i] == Registration(user, kind, true)
  }

  /** The dictionary of candidate types keeps the last active registration of each user. */
  function LastKind(registrations: seq<Registration>, user: User): Option<string> {
    if registrations == [] then None
    else
      var last := registrations[|registrations| - 1];
      if last.active && last.user == user then Some(last.kind) else LastKind(registrations[..|registrations| - 1], user)
  }

  predicate OneActiveEach(registrations: seq<Registration>) {
    forall i, j | 0 <= i < j < |registrations| && registrations[i].active && registrations[j].active ::
      registrations[i].user != registrations[j].user
  }

  /* ---- The two scores ---- */

  function Points(b: bool, n: nat): nat {
    if b then n else 0
  }

  function Shared(own: seq<string>, other: seq<string>): set<string> {
    Members(own) * Members(other)
  }

  /** What both computations agree on: shared interests and skills, same organization and designation, a common competition. */
  function ProfileScore(c: Context, row: Profile): nat {
    2 * |Shared(c.own.interests, row.interests)| + |Shared(c.own.skills, row.skills)|
    + Points(Given(c.own.organization) && row.organization == c.own.organization, 2)
    + Points(Given(c.own.designation) && row.designation == c.own.designation, 1)
    + Points(Entered(c, c.own.user) * Entered(c, row.user) != {}, 3)
  }

  predicate SameKindInQuery(c: Context, row: Profile) {
    var kind := OwnKind(c.registrations, c.own.user);
    Given(kind) && HasKind(c.registrations, row.user, kind.value)
  }

  predicate SameKindOnPage(c: Context, row: Profile) {
    var kind := OwnKind(c.registrations, c.own.user);
    Given(kind) && LastKind(c.registrations, row.user) == kind
  }

  function QueryScore(c: Context, row: Profile): nat {
    ProfileScore(c, row) + Points(SameKindInQuery(c, row), 2)
  }

  function PageScore(c: Context, row: Profile): nat {
    ProfileScore(c, row) + Points(SameKindOnPage(c, row), 2)
  }

  /** Moving one value from the rest to the part already looked at adds it to the common values if it is listed. */
  lemma OneMoreCase(values: set<string>, todo: set<string>, list: set<string>, v: string)
    requires v in todo && todo <= values
    ensures |(values - (todo - {v})) * list| == |(values - todo) * list| + (if v in list then 1 else 0)
  {
    var before := (values - todo) * list;
    assert (values - (todo - {v})) * list == if v in list then before + {v} else before;
  }

  lemma OneMoreTime(weight: nat, hits: nat)
    ensures weight * (hits + 1) == weight * hits + weight
  {}

  /** Adds one case expression per value of the viewer: the weight if the row's list contains it. */
  method AddCases(values: set<string>, list: seq<string>, weight: nat, score0: nat) returns (score: nat)
    ensures score == score0 + weight * |values * Members(list)|
  {
    score := score0;
    var todo := values;
    ghost var hits := 0;
    assert (values - todo) * Members(list) == {};
    while todo != {}
      invariant todo <= values
      invariant hits == |(values - todo) * Members(list)|
      invariant score == score0 + weight * hits
    {
      var v :| v in todo;
      OneMoreCase(values, todo, Members(list), v);
      OneMoreTime(weight, hits);
      assert v in list <==> v in Members(list);
      if v in list {
        score := score + weight;
        hits := hits + 1;
      }
      todo := todo - {v};
    }
    assert (values - todo) * Members(list) == values * Members(list);
  }

  /** The score expression of the query, evaluated for one row. */
  method EvaluateScore(c: Context, row: Profile) returns (score: nat)
    ensures score == QueryScore(c, row)
  {
    score := AddCases(Members(c.own.interests), row.interests, 2, 0);
    score := AddCases(Members(c.own.skills), row.skills, 1, score);
    if Given(c.own.organization) && row.organization == c.own.organization {
      score := score + 2;
    }
    if Given(c.own.designation) && row.designation == c.own.designation {
      score := score + 1;
    }
    var kind := OwnKind(c.registrations, c.own.user);
    if Given(kind) && HasKind(c.registrations, row.user, kind.value) {
      score := score + 2;
    }
    var own, theirs := Entered(c, c.own.user), Entered(c, row.user);
    if own != {} && exists k | k in own :: k in theirs {
      assert own * theirs != {} by {
        var k :| k in own && k in theirs;
        assert k in own * theirs;
      }
      score := score + 3;
    } else {
      assert own * theirs == {};
    }
  }

  lemma {:induction false} LastKindHolds(registrations: seq<Registration>, user: User)
    ensures LastKind(registrations, user).Some? ==> HasKind(registrations, user, LastKind(registrations, user).value)
  {
    if registrations != [] {
      var init, last := registrations[..|registrations| - 1], registrations[|registrations| - 1];
      LastKindHolds(init, user);
      if last.active && last.user == user {
        assert last == Registration(user, last.kind, true);
      } else if LastKind(init, user).Some? {
        var i :| 0 <= i < |init| && init[i] == Registration(user, LastKind(init, user).value, true);
        assert registrations[i] == init[i];
      }
    }
  }

  lemma {:induction false} OnlyKindIsLast(registrations: seq<Registration>, user: User, kind: string)
    requires OneActiveEach(registrations) && HasKind(registrations, user, kind)
    ensures LastKind(registrations, user) == Some(kind)
  {
    var init, last := registrations[..|registrations| - 1], registrations[|registrations| - 1];
    var i :| 0 <= i < |registrations| && registrations[i] == Registration(user, kind, true);
    if i < |init| {
      assert registrations[i].active && (last.active ==> registrations[i].user != last.user);
      assert init[i] == registrations[i];
      OnlyKindIsLast(init, user, kind);
    }
  }

  /** The two scores of a row are equal exactly when they agree on the participation type, which they always do when
      every user has at most one active registration. */
  lemma ScoresAgree(c: Context, row: Profile)
    ensures QueryScore(c, row) == PageScore(c, row) <==> (SameKindInQuery(c, row) ==> SameKindOnPage(c, row))
    ensures OneActiveEach(c.registrations) ==> QueryScore(c, row) == PageScore(c, row)
  {
    LastKindHolds(c.registrations, row.user);
    if OneActiveEach(c.registrations) && SameKindInQuery(c, row) {
      OnlyKindIsLast(c.registrations, row.user, OwnKind(c.registrations, c.own.user).value);
    }
  }

  /** With two active registrations the query sees both, the page only the last one. */
  lemma TwoRegistrationsDisagree(c: Context, row: Profile)
    requires c.own.user == 1 && row.user == 2
    requires c.registrations == [Registration(1, "team", true), Registration(2, "team", true), Registration(2, "viewer", true)]
    ensures QueryScore(c, row) == PageScore(c, row) + 2
  {
    assert c.registrations[1] == Registration(2, "team", true);
    assert c.registrations[2].kind != "team";
  }

  /* ---- What is scored ---- */

  /** The kind of the user's first active registration. */
  predicate FirstKind(registrations: seq<Registration>, user: User, kind: string) {
    exists i | 0 <= i < |registrations| :: registrations[i].active && registrations[i].user == user && registrations[i].kind == kind
      && forall j | 0 <= j < i :: !(registrations[j].active && registrations[j].user == user)
  }

  predicate FinalKind(registrations: seq<Registration>, user: User, kind: string) {
    exists i | 0 <= i < |registrations| :: registrations[i].active && registrations[i].user == user && registrations[i].kind == kind
      && forall j | i < j < |registrations| :: !(registrations[j].active && registrations[j].user == user)
  }

  lemma {:induction false} OwnKindIsFirst(registrations: seq<Registration>, user: User, kind: string)
    ensures OwnKind(registrations, user) == Some(kind) <==> FirstKind(registrations, user, kind)
  {
    if registrations != [] {
      var rest := registrations[1..];
      OwnKindIsFirst(rest, user, kind);
      if FirstKind(rest, user, kind) && !(registrations[0].active && registrations[0].user == user) {
        var i :| 0 <= i < |rest| && rest[i].active && rest[i].user == user && rest[i].kind == kind
          && forall j | 0 <= j < i :: !(rest[j].active && rest[j].user == user);
        assert registrations[i + 1] == rest[i];
        forall j | 0 <= j < i + 1 ensures !(registrations[j].active && registrations[j].user == user) {
          assert j > 0 ==> registrations[j] == rest[j - 1];
        }
      }
      if FirstKind(registrations, user, kind) && !(registrations[0].active && registrations[0].user == user) {
        var i :| 0 <= i < |registrations| && registrations[i].active && registrations[i].user == user && registrations[i].kind == kind
          && forall j | 0 <= j < i :: !(registrations[j].active && registrations[j].user == user);
        assert rest[i - 1] == registrations[i];
        forall j | 0 <= j < i - 1 ensures !(rest[j].active && rest[j].user == user) {
          assert rest[j] == registrations[j + 1];
        }
      }
    }
  }

  lemma {:induction false} LastKindIsFinal(registrations: seq<Registration>, user: User, kind: string)
    ensures LastKind(registrations, user) == Some(kind) <==> FinalKind(registrations, user, kind)
  {
    if registrations != [] {
      LastKindIsFinal(registrations[..|registrations| - 1], user, kind);
    }
  }

  /** Two points for each common interest, one for each common skill, two for the same organization, one for the same
      designation, three for a common competition. */
  function PlainScore(c: Context, row: Profile): nat {
    2 * |set v | v in c.own.interests && v in row.interests| + |set v | v in c.own.skills && v in row.skills|
    + (if c.own.organization.Some? && c.own.organization.value != "" && row.organization == c.own.organization then 2 else 0)
    + (if c.own.designation.Some? && c.own.designation.value != "" && row.designation == c.own.designation then 1 else 0)
    + (if c.own.user in c.entered && row.user in c.entered && c.entered[c.own.user] * c.entered[row.user] != {} then 3 else 0)
  }

  /** The query adds two when some active registration of the candidate is of the kind of the viewer's first one, the page
      when the last one is; the empty kind never counts. */
  lemma ScoresMean(c: Context, row: Profile)
    ensures QueryScore(c, row) == PlainScore(c, row) +
      if exists kind :: kind != "" && FirstKind(c.registrations, c.own.user, kind)
                        && Registration(row.user, kind, true) in c.registrations then 2 else 0
    ensures PageScore(c, row) == PlainScore(c, row) +
      if exists kind :: kind != "" && FirstKind(c.registrations, c.own.user, kind)
                        && FinalKind(c.registrations, row.user, kind) then 2 else 0
  {
    ProfileScoreMeans(c, row);
    forall kind ensures OwnKind(c.registrations, c.own.user) == Some(kind) <==> FirstKind(c.registrations, c.own.user, kind) {
      OwnKindIsFirst(c.registrations, c.own.user, kind);
    }
    forall kind ensures LastKind(c.registrations, row.user) == Some(kind) <==> FinalKind(c.registrations, row.user, kind) {
      LastKindIsFinal(c.registrations, row.user, kind);
    }
  }

  lemma ProfileScoreMeans(c: Context, row: Profile)
    ensures ProfileScore(c, row) == PlainScore(c, row)
  {
    assert Shared(c.own.interests, row.interests) == set v | v in c.own.interests && v in row.interests;
    assert Shared(c.own.skills, row.skills) == set v | v in c.own.skills && v in row.skills;
  }

  /* ---- Recommended pages ---- */

  datatype Shown = Shown(profile: Profile, score: nat)

  predicate DistinctProfiles(rows: seq<Profile>) {
    forall i, j | 0 <= i < j < |rows| :: rows[i].id != rows[j].id
  }

  /** Highest score first, then by id. */
  function Order(c: Context): (Profile, Profile) -> bool {
    (x, y) => QueryScore(c, x) > QueryScore(c, y) || (QueryScore(c, x) == QueryScore(c, y) && x.id < y.id)
  }

  function Ordered(c: Context, candidates: seq<Profile>): seq<Profile> {
    Sort(Order(c), candidates)
  }

  /** One page: the query's slice, with the score recomputed for every row. */
  method RecommendedPage(c: Context, candidates: seq<Profile>, page: nat, size: nat) returns (result: seq<Shown>)
    requires DistinctProfiles(candidates) && page >= 1
    ensures var all := Ordered(c, candidates); var start := (page - 1) * size;
      |result| == Min(start + size, |all|) - Min(start, |all|)
    ensures var all := Ordered(c, candidates); var start := (page - 1) * size;
      forall i | 0 <= i < |result| :: start + i < |all| && result[i] == Shown(all[start + i], PageScore(c, all[start + i]))
  {
    var all, start := Ordered(c, candidates), (page - 1) * size;
    result := Show(c, all, Min(start, |all|), Min(start + size, |all|));
  }

  method Show(c: Context, all: seq<Profile>, from: nat, to: nat) returns (result: seq<Shown>)
    requires from <= to <= |all|
    ensures |result| == to - from
    ensures forall i | 0 <= i < |result| :: result[i] == Shown(all[from + i], PageScore(c, all[from + i]))
  {
    result := [];
    for i := from to to
      invariant |result| == i - from
      invariant forall j | 0 <= j < |result| :: result[j] == Shown(all[from + j], PageScore(c, all[from + j]))
    {
      result := result + [Shown(all[i], PageScore(c, all[i]))];
    }
  }

  /** With one active registration each, reported scores never increase along the ordered list, so neither within a page
      nor from one page to a later one. */
  lemma ReportedScoresDescend(c: Context, candidates: seq<Profile>, i: nat, j: nat)
    requires DistinctProfiles(candidates) && OneActiveEach(c.registrations)
    requires i < j < |Ordered(c, candidates)|
    ensures PageScore(c, Ordered(c, candidates)[i]) >= PageScore(c, Ordered(c, candidates)[j])
  {
    var all := Ordered(c, candidates);
    SortSorts(Order(c), candidates);
    assert Order(c)(all[i], all[j]);
    ScoresAgree(c, all[i]);
    ScoresAgree(c, all[j]);
  }

  /** The list is ordered by the score of the query, and among equal ones by id. */
  lemma ListIsOrdered(c: Context, candidates: seq<Profile>, i: nat, j: nat)
    requires DistinctProfiles(candidates) && i < j < |Ordered(c, candidates)|
    ensures var all := Ordered(c, candidates);
      && QueryScore(c, all[i]) >= QueryScore(c, all[j])
      && (QueryScore(c, all[i]) == QueryScore(c, all[j]) ==> all[i].id < all[j].id)
  {
    SortSorts(Order(c), candidates);
    assert Order(c)(Ordered(c, candidates)[i], Ordered(c, candidates)[j]);
  }

  /** Every candidate is on exactly one place of the ordered list. */
  lemma EveryCandidateIsListed(c: Context, candidates: seq<Profile>)
    requires DistinctProfiles(candidates)
    ensures multiset(Ordered(c, candidates)) == multiset(candidates)
    ensures DistinctProfiles(Ordered(c, candidates))
  {
    var all := Ordered(c, candidates);
    SortPermutes(Order(c), candidates);
    SortSorts(Order(c), candidates);
    forall i, j | 0 <= i < j < |all| ensures all[i].id != all[j].id {
      assert Order(c)(all[i], all[j]);
      SameMembers(all, candidates, all[i]);
      SameMembers(all, candidates, all[j]);
    }
  }
}
