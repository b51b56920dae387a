/** Event polls: response and vote rows, and the results counted from them. */
module Polls {
  import opened Common

  type Id = nat
  type User = nat
  type Time = int

  datatype Status = Draft | Scheduled | Live | Closed | Archived
  datatype Mode = Single | Multiple
  datatype Visibility = Hidden | AfterVoting | Always | AfterClose

  /** `max` is unlimited when absent or zero. */
  datatype Poll = Poll(options: seq<Id>, mode: Mode, max: Option<int>, allowChange: bool, visibility: Visibility,
                       starts: Time, ends: Time, status: Status)

  datatype Response = Response(poll: Id, user: User, at: Time)
  datatype Vote = Vote(response: Id, option: Id)

  datatype Problem = NotFound | NotLive | NotEligible | WrongOption | SelectOne | TooMany | AlreadyVoted | NotAvailable
  datatype Outcome = Done | Failed(problem: Problem)

  predicate Distinct<T(==)>(s: seq<T>) {
    forall i, j | 0 <= i < j < |s| :: s[i] != s[j]
  }

  /** Each option once, where it first occurs. */
  function Dedup(ids: seq<Id>): (r: seq<Id>)
    ensures Distinct(r) && forall x :: x in r <==> x in ids
    ensures ids != [] ==> Dedup(ids[..|ids| - 1]) <= r
  {
    if ids == [] then []
    else
      var init, last := ids[..|ids| - 1], ids[|ids| - 1];
      if last in init then Dedup(init) else Dedup(init) + [last]
  }

  /** Only one of the two changes happens: a scheduled poll past its end is opened, not closed. */
  function Refreshed(p: Poll, now: Time): Status {
    if p.status == Scheduled && now >= p.starts then Live
    else if p.status == Live && now >= p.ends then Closed
    else p.status
  }

  predicate Limited(p: Poll) {
    p.max.Some? && p.max.value != 0
  }

  /** A selection the poll accepts: distinct options of its own, one for single choice, no more than the limit. */
  predicate Permitted(p: Poll, selected: seq<Id>) {
    && Distinct(selected) && (forall o | o in selected :: o in p.options)
    && (p.mode == Single ==> |selected| == 1)
    && (Limited(p) ==> |selected| <= p.max.value)
  }

  /* ---- What a run of votes means ---- */

  type Ballots = map<(Id, User), seq<Id>>
  datatype State = State(polls: map<Id, Poll>, ballots: Ballots)
  datatype Op = Cast(poll: Id, user: User, ids: seq<Id>, now: Time, eligible: bool) | Change(poll: Id, target: Status)

  function CastOutcome(s: State, op: Op): Outcome
    requires op.Cast?
  {
    if op.poll !in s.polls then Failed(NotFound)
    else
      var p, selected := s.polls[op.poll], Dedup(op.ids);
      if Refreshed(p, op.now) != Live then Failed(NotLive)
      else if !op.eligible then Failed(NotEligible)
      else if exists o | o in selected :: o !in p.options then Failed(WrongOption)
      else if p.mode == Single && |selected| != 1 then Failed(SelectOne)
      else if Limited(p) && |selected| > p.max.value then Failed(TooMany)
      else if (op.poll, op.user) in s.ballots && !p.allowChange then Failed(AlreadyVoted)
      else Done
  }

  function AllowedFrom(from: Status): set<Status> {
    match from
    case Draft => {Scheduled, Closed}
    case Scheduled => {Live, Closed}
    case Live => {Closed}
    case Closed => {Archived}
    case Archived => {}
  }

  predicate MayBecome(from: Status, to: Status) {
    to in AllowedFrom(from)
  }

  function Apply(s: State, op: Op): State {
    match op
    case Cast(poll, user, ids, _, _) =>
      if CastOutcome(s, op) != Done then s
      else State(s.polls[poll := s.polls[poll].(status := Live)], s.ballots[(poll, user) := Dedup(ids)])
    case Change(poll, target) =>
      if poll in s.polls && MayBecome(s.polls[poll].status, target) then
        s.(polls := s.polls[poll := s.polls[poll].(status := target)])
      else s
  }

  function Run(s: State, ops: seq<Op>): State {
    if ops == [] then s else Apply(Run(s, ops[..|ops| - 1]), ops[|ops| - 1])
  }

  /** The votes of one user in one poll that were accepted, in order. */
  function Accepted(s: State, ops: seq<Op>, poll: Id, user: User): seq<seq<Id>> {
    if ops == [] then []
    else
      var init, op := ops[..|ops| - 1], ops[|ops| - 1];
      var before := Accepted(s, init, poll, user);
      if Casts(Run(s, init), op, poll, user) then before + [Dedup(op.ids)] else before
  }

  /** The operation is an accepted vote of the user in the poll. */
  predicate Casts(s: State, op: Op, poll: Id, user: User) {
    op.Cast? && op.poll == poll && op.user == user && CastOutcome(s, op) == Done
  }

  lemma StepMeaning(s: State, op: Op, poll: Id, user: User)
    requires poll in s.polls
    ensures var before, after := s.ballots, Apply(s, op).ballots;
      if Casts(s, op, poll, user) then
        && (poll, user) in after && after[(poll, user)] == Dedup(op.ids) && Permitted(s.polls[poll], Dedup(op.ids))
        && ((poll, user) in before ==> s.polls[poll].allowChange)
      else
        && ((poll, user) in after <==> (poll, user) in before)
        && ((poll, user) in before ==> after[(poll, user)] == before[(poll, user)])
  {}

  /** Options are distinct rows, and every ballot is one its poll accepts. */
  ghost predicate Sound(s: State) {
    && (forall p | p in s.polls :: Distinct(s.polls[p].options))
    && forall k | k in s.ballots :: k.0 in s.polls && Permitted(s.polls[k.0], s.ballots[k])
  }

  lemma StepKeepsSound(s: State, op: Op)
    requires Sound(s)
    ensures Sound(Apply(s, op))
  {}

  lemma {:induction false} RunKeepsSound(s: State, ops: seq<Op>, poll: Id)
    requires Sound(s) && poll in s.polls
    ensures var s' := Run(s, ops);
      Sound(s') && poll in s'.polls && s'.polls[poll] == s.polls[poll].(status := s'.polls[poll].status)
  {
    if ops != [] {
      RunKeepsSound(s, ops[..|ops| - 1], poll);
      StepKeepsSound(Run(s, ops[..|ops| - 1]), ops[|ops| - 1]);
    }
  }

  /** Over every run: a user's ballot is the last accepted selection, one the poll permits; and where votes may not be
      changed there is at most one accepted. */
  lemma {:induction false} RunMeaning(s: State, ops: seq<Op>, poll: Id, user: User)
    requires Sound(s) && (poll, user) !in s.ballots && poll in s.polls
    ensures var s' := Run(s, ops); var accepted := Accepted(s, ops, poll, user);
      && ((poll, user) in s'.ballots <==> accepted != [])
      && (accepted != [] ==> s'.ballots[(poll, user)] == accepted[|accepted| - 1]
                             && Permitted(s.polls[poll], accepted[|accepted| - 1]))
      && (!s.polls[poll].allowChange ==> |accepted| <= 1)
  {
    if ops != [] {
      RunMeaning(s, ops[..|ops| - 1], poll, user);
      RunKeepsSound(s, ops[..|ops| - 1], poll);
      StepMeaning(Run(s, ops[..|ops| - 1]), ops[|ops| - 1], poll, user);
    }
  }

  /** A ballot holds distinct options of the poll: one for a single choice, and no more than the limit if there is one. */
  lemma BallotIsAllowed(s: State, ops: seq<Op>, poll: Id, user: User)
    requires Sound(s) && (poll, user) !in s.ballots && poll in s.polls && (poll, user) in Run(s, ops).ballots
    ensures var p := s.polls[poll]; var ballot := Run(s, ops).ballots[(poll, user)];
      && (forall i, j | 0 <= i < |ballot| && 0 <= j < |ballot| && i != j :: ballot[i] != ballot[j])
      && (forall o | o in ballot :: o in p.options)
      && (p.mode == Single ==> |ballot| == 1)
      && (p.max.Some? && p.max.value != 0 ==> |ballot| <= p.max.value)
  {
    RunMeaning(s, ops, poll, user);
  }

  function Members(ids: seq<Id>): set<Id> {
    set o | o in ids
  }

  /** A vote is accepted exactly when the poll is open by its stored status, the user is eligible, all options are the poll's,
      they are one for a single choice and no more than a limit that is not zero, and there is no earlier vote or votes may
      be changed. */
  lemma AcceptedIff(s: State, op: Op)
    requires op.Cast? && op.poll in s.polls
    ensures var p := s.polls[op.poll]; var chosen := Members(op.ids);
      CastOutcome(s, op) == Done <==>
      && ((p.status == Live && op.now < p.ends) || (p.status == Scheduled && op.now >= p.starts)) && op.eligible
      && (forall o | o in op.ids :: o in p.options) && (p.mode == Single ==> |chosen| == 1)
      && (p.max.Some? && p.max.value != 0 ==> |chosen| <= p.max.value)
      && ((op.poll, op.user) in s.ballots ==> p.allowChange)
  {
    DedupCount(op.ids);
  }

  lemma DedupCount(ids: seq<Id>)
    ensures |Dedup(ids)| == |Members(ids)|
  {
    DistinctCount(Dedup(ids));
    assert Members(Dedup(ids)) == Members(ids);
  }

  lemma {:induction false} DistinctCount(ids: seq<Id>)
    requires Distinct(ids)
    ensures |Members(ids)| == |ids|
  {
    if ids != [] {
      var init, last := ids[..|ids| - 1], ids[|ids| - 1];
      DistinctCount(init);
      assert ids == init + [last];
      assert Members(ids) == Members(init) + {last};
      assert last !in Members(init);
    }
  }

  /* ---- When a poll takes votes ---- */

  /** Time never refuses a vote exactly when the stored status is live before the end, or scheduled from the start on,
      however late; so past the end it refuses none exactly when the stored status is scheduled and the start has passed. */
  lemma OpenForVotes(s: State, op: Op)
    requires op.Cast? && op.poll in s.polls
    ensures var p := s.polls[op.poll];
      CastOutcome(s, op) != Failed(NotLive) <==>
      (p.status == Live && op.now < p.ends) || (p.status == Scheduled && op.now >= p.starts)
    ensures var p := s.polls[op.poll];
      op.now >= p.ends ==> (CastOutcome(s, op) != Failed(NotLive) <==> p.status == Scheduled && op.now >= p.starts)
    ensures CastOutcome(s, op) == Done ==> Apply(s, op).polls[op.poll].status == Live
  {}

  /** A vote in the poll that is accepted although the poll's end has passed. */
  predicate Late(s: State, op: Op, poll: Id) {
    op.Cast? && op.poll == poll && CastOutcome(s, op) == Done && op.now >= s.polls[poll].ends
  }

  function LateVotes(s: State, ops: seq<Op>, poll: Id): nat {
    if ops == [] then 0
    else
      var init := ops[..|ops| - 1];
      LateVotes(s, init, poll) + if Late(Run(s, init), ops[|ops| - 1], poll) then 1 else 0
  }

  predicate NotYetOpen(s: State, poll: Id) {
    poll in s.polls && s.polls[poll].status in {Draft, Scheduled}
  }

  /** Over every run at most one vote is accepted past the end of a poll, and none once the poll has been opened. */
  lemma {:induction false} OneLateVote(s: State, ops: seq<Op>, poll: Id)
    requires poll in s.polls
    ensures poll in Run(s, ops).polls
    ensures LateVotes(s, ops, poll) <= 1
    ensures LateVotes(s, ops, poll) == 1 ==> NotYetOpen(s, poll) && !NotYetOpen(Run(s, ops), poll)
    ensures !NotYetOpen(s, poll) ==> !NotYetOpen(Run(s, ops), poll)
  {
    if ops != [] {
      OneLateVote(s, ops[..|ops| - 1], poll);
    }
  }

  /** A scheduled poll from 0 to 10: at time 20 the first vote is accepted and the next one refused. */
  lemma LateVoteHappens()
    ensures var s := State(map[0 := Poll([1], Single, None, false, Hidden, 0, 10, Scheduled)], map[]);
      var ops := [Cast(0, 5, [1], 20, true), Cast(0, 6, [1], 20, true)];
      && Late(s, ops[0], 0) && LateVotes(s, ops, 0) == 1
      && CastOutcome(Apply(s, ops[0]), ops[1]) == Failed(NotLive)
  {
    var s := State(map[0 := Poll([1], Single, None, false, Hidden, 0, 10, Scheduled)], map[]);
    var a, b := Cast(0, 5, [1], 20, true), Cast(0, 6, [1], 20, true);
    assert [1][..0] == [] && Dedup([1]) == [1];
    assert [a, b][..1] == [a] && [a][..0] == [];
    assert CastOutcome(s, a) == Done;
    assert Run(s, []) == s && LateVotes(s, [], 0) == 0;
    assert Run(s, [a]) == Apply(s, a) && LateVotes(s, [a], 0) == 1;
  }

  /* ---- Rows ---- */

  /** The options of one response, in row order. */
  function Chosen(votes: seq<Vote>, response: Id): seq<Id> {
    if votes == [] then []
    else
      var last := votes[|votes| - 1];
      Chosen(votes[..|votes| - 1], response) + (if last.response == response then [last.option] else [])
  }

  function Without(votes: seq<Vote>, response: Id): seq<Vote> {
    if votes == [] then []
    else
      var last := votes[|votes| - 1];
      Without(votes[..|votes| - 1], response) + (if last.response == response then [] else [last])
  }

  function Rows(response: Id, selected: seq<Id>): seq<Vote> {
    if selected == [] then [] else Rows(response, selected[..|selected| - 1]) + [Vote(response, selected[|selected| - 1])]
  }

  lemma {:induction false} ChosenOfBoth(a: seq<Vote>, b: seq<Vote>, r: Id)
    ensures Chosen(a + b, r) == Chosen(a, r) + Chosen(b, r)
  {
    if b == [] {
      assert a + b == a;
    } else {
      assert (a + b)[..|a + b| - 1] == a + b[..|b| - 1];
      ChosenOfBoth(a, b[..|b| - 1], r);
    }
  }

  lemma ChosenOneMore(votes: seq<Vote>, v: Vote, r: Id)
    ensures Chosen(votes + [v], r) == Chosen(votes, r) + (if v.response == r then [v.option] else [])
  {}

  lemma {:induction false} ChosenAfterDelete(votes: seq<Vote>, gone: Id, r: Id)
    ensures Chosen(Without(votes, gone), r) == if r == gone then [] else Chosen(votes, r)
  {
    if votes != [] {
      var init, last := votes[..|votes| - 1], votes[|votes| - 1];
      ChosenAfterDelete(init, gone, r);
      ChosenOneMore(Without(init, gone), last, r);
      assert Without(votes, gone) == if last.response == gone then Without(init, gone) else Without(init, gone) + [last];
    }
  }

  lemma {:induction false} WithoutKeeps(votes: seq<Vote>, gone: Id, v: Vote)
    ensures v in Without(votes, gone) <==> v in votes && v.response != gone
  {
    if votes != [] {
      WithoutKeeps(votes[..|votes| - 1], gone, v);
    }
  }

  lemma {:induction false} ChosenOfRows(selected: seq<Id>, response: Id, r: Id)
    ensures Chosen(Rows(response, selected), r) == if r == response then selected else []
  {
    if selected != [] {
      var init, last := selected[..|selected| - 1], selected[|selected| - 1];
      ChosenOfRows(init, response, r);
      ChosenOneMore(Rows(response, init), Vote(response, last), r);
      assert init + [last] == selected;
    }
  }

  lemma {:induction false} RowsOfResponse(selected: seq<Id>, response: Id, v: Vote)
    ensures v in Rows(response, selected) ==> v.response == response
  {
    if selected != [] {
      RowsOfResponse(selected[..|selected| - 1], response, v);
    }
  }

  /** Replacing the rows of one response touches no other response. */
  lemma ChosenAfterVote(votes: seq<Vote>, response: Id, selected: seq<Id>, r: Id)
    ensures Chosen(Without(votes, response) + Rows(response, selected), r) == if r == response then selected else Chosen(votes, r)
  {
    ChosenOfBoth(Without(votes, response), Rows(response, selected), r);
    ChosenAfterDelete(votes, response, r);
    ChosenOfRows(selected, response, r);
  }

  lemma {:induction false} ChosenHas(votes: seq<Vote>, v: Vote)
    ensures v.option in Chosen(votes, v.response) <==> v in votes
  {
    if votes != [] {
      ChosenHas(votes[..|votes| - 1], v);
    }
  }

  type Responses = map<Id, Response>

  predicate Of(responses: Responses, r: Id, poll: Id, user: User) {
    r in responses && responses[r].poll == poll && responses[r].user == user
  }

  ghost predicate OneResponseEach(responses: Responses) {
    forall r, q | r in responses && q in responses && responses[r].poll == responses[q].poll
      && responses[r].user == responses[q].user :: r == q
  }

  /** The rows say the same as the ballots: one response per poll and user with a ballot, its vote rows the selection. */
  ghost predicate Refines(responses: Responses, votes: seq<Vote>, ballots: Ballots) {
    && (forall r | r in responses ::
          (responses[r].poll, responses[r].user) in ballots
          && Chosen(votes, r) == ballots[(responses[r].poll, responses[r].user)])
    && (forall k | k in ballots :: HasResponse(responses, k.0, k.1))
    && OneResponseEach(responses)
    && (forall v | v in votes :: v.response in responses)
  }

  predicate HasResponse(responses: Responses, poll: Id, user: User) {
    exists r | r in responses :: Of(responses, r, poll, user)
  }

  /** Replacing one response keeps a response for every ballot, and one only. */
  lemma EachBallotHasResponse(responses: Responses, ballots: Ballots, r: Id, response: Response, selected: seq<Id>)
    requires forall k | k in ballots :: HasResponse(responses, k.0, k.1)
    requires OneResponseEach(responses)
    requires if r in responses then Of(responses, r, response.poll, response.user) else !HasResponse(responses, response.poll, response.user)
    ensures var ballots' := ballots[(response.poll, response.user) := selected];
      forall k | k in ballots' :: HasResponse(responses[r := response], k.0, k.1)
    ensures OneResponseEach(responses[r := response])
  {
    var responses' := responses[r := response];
    forall k | k in ballots || k == (response.poll, response.user) ensures HasResponse(responses', k.0, k.1) {
      if k == (response.poll, response.user) {
        assert Of(responses', r, k.0, k.1);
      } else {
        var q :| q in responses && Of(responses, q, k.0, k.1);
        assert Of(responses', q, k.0, k.1);
      }
    }
    forall q | q in responses && responses[q].poll == response.poll && responses[q].user == response.user ensures q == r {
      assert Of(responses, q, response.poll, response.user);
    }
  }

  /** The rows of each response are its ballot after a vote, too. */
  lemma RowsAreBallot(responses: Responses, votes: seq<Vote>, ballots: Ballots, r: Id, response: Response, selected: seq<Id>, q: Id)
    requires Refines(responses, votes, ballots) && OneResponseEach(responses[r := response]) && q in responses[r := response]
    ensures var owner := responses[r := response][q]; var ballots' := ballots[(response.poll, response.user) := selected];
      && (owner.poll, owner.user) in ballots'
      && Chosen(Without(votes, r) + Rows(r, selected), q) == ballots'[(owner.poll, owner.user)]
  {
    ChosenAfterVote(votes, r, selected, q);
    var responses' := responses[r := response];
    assert q != r ==> (responses'[q].poll, responses'[q].user) != (response.poll, response.user) by {
      assert responses'[r] == response;
    }
  }

  lemma VoteRefines(responses: Responses, votes: seq<Vote>, ballots: Ballots, r: Id, poll: Id, user: User, now: Time, selected: seq<Id>)
    requires Refines(responses, votes, ballots)
    requires if r in responses then Of(responses, r, poll, user) else !HasResponse(responses, poll, user)
    ensures Refines(responses[r := Response(poll, user, now)], Without(votes, r) + Rows(r, selected), ballots[(poll, user) := selected])
  {
    var response := Response(poll, user, now);
    var responses', votes' := responses[r := response], Without(votes, r) + Rows(r, selected);
    EachBallotHasResponse(responses, ballots, r, response, selected);
    forall q | q in responses'
      ensures var owner := responses'[q]; var ballots' := ballots[(poll, user) := selected];
        (owner.poll, owner.user) in ballots' && Chosen(votes', q) == ballots'[(owner.poll, owner.user)]
    {
      RowsAreBallot(responses, votes, ballots, r, response, selected, q);
    }
    forall v | v in votes' ensures v.response in responses' {
      WithoutKeeps(votes, r, v);
      RowsOfResponse(selected, r, v);
    }
  }

  /* ---- Counting ---- */

  /** The vote rows of a poll's responses with the option. */
  function CountRows(responses: Responses, votes: seq<Vote>, poll: Id, option: Id): nat {
    if votes == [] then 0
    else
      var last := votes[|votes| - 1];
      CountRows(responses, votes[..|votes| - 1], poll, option) + (if InPoll(responses, last, poll) && last.option == option then 1 else 0)
  }

  predicate InPoll(responses: Responses, v: Vote, poll: Id) {
    v.response in responses && responses[v.response].poll == poll
  }

  function AllRows(responses: Responses, votes: seq<Vote>, poll: Id): nat {
    if votes == [] then 0
    else AllRows(responses, votes[..|votes| - 1], poll) + (if InPoll(responses, votes[|votes| - 1], poll) then 1 else 0)
  }

  /** The users whose ballot has the option. */
  function Voters(ballots: Ballots, poll: Id, option: Id): set<User> {
    set k | k in ballots && k.0 == poll && option in ballots[k] :: k.1
  }

  function SumVoters(ballots: Ballots, poll: Id, options: seq<Id>): nat {
    if options == [] then 0
    else SumVoters(ballots, poll, options[..|options| - 1]) + |Voters(ballots, poll, options[|options| - 1])|
  }

  function SumRows(responses: Responses, votes: seq<Vote>, poll: Id, options: seq<Id>): nat {
    if options == [] then 0
    else SumRows(responses, votes, poll, options[..|options| - 1]) + CountRows(responses, votes, poll, options[|options| - 1])
  }

  lemma {:induction false} RowsAreDistinct(votes: seq<Vote>)
    requires forall r :: Distinct(Chosen(votes, r))
    ensures Distinct(votes)
  {
    if votes != [] {
      var init, last := votes[..|votes| - 1], votes[|votes| - 1];
      forall r ensures Distinct(Chosen(init, r)) {
        assert Distinct(Chosen(votes, r));
        assert Chosen(init, r) == Chosen(votes, r)[..|Chosen(init, r)|];
      }
      RowsAreDistinct(init);
      ChosenHas(init, last);
      var chosen, before := Chosen(votes, last.response), Chosen(init, last.response);
      assert Distinct(chosen) && chosen == before + [last.option];
      assert last.option !in before by {
        assert forall i | 0 <= i < |before| :: before[i] == chosen[i] && chosen[i] != chosen[|before|];
      }
    }
  }

  function Responders(responses: Responses, votes: seq<Vote>, poll: Id, option: Id): set<Id> {
    set v | v in votes && InPoll(responses, v, poll) && v.option == option :: v.response
  }

  lemma OneResponderMore(responses: Responses, init: seq<Vote>, last: Vote, poll: Id, option: Id)
    requires last !in init
    ensures var before, after := Responders(responses, init, poll, option), Responders(responses, init + [last], poll, option);
      if InPoll(responses, last, poll) && last.option == option then
        last.response !in before && after == before + {last.response}
      else after == before
  {}

  lemma {:induction false} RowsAreResponders(responses: Responses, votes: seq<Vote>, poll: Id, option: Id)
    requires Distinct(votes)
    ensures CountRows(responses, votes, poll, option) == |Responders(responses, votes, poll, option)|
  {
    if votes != [] {
      var init, last := votes[..|votes| - 1], votes[|votes| - 1];
      RowsAreResponders(responses, init, poll, option);
      assert votes == init + [last];
      OneResponderMore(responses, init, last, poll, option);
    }
  }

  lemma {:induction false} UsersOf(responses: Responses, ids: set<Id>, users: set<User>)
    requires ids <= responses.Keys
    requires forall r, q | r in ids && q in ids && responses[r].user == responses[q].user :: r == q
    requires forall r | r in ids :: responses[r].user in users
    requires forall u | u in users :: exists r | r in ids :: responses[r].user == u
    ensures |ids| == |users|
    decreases ids
  {
    if ids == {} {
      assert users == {};
    } else {
      var r :| r in ids;
      UsersOf(responses, ids - {r}, users - {responses[r].user});
    }
  }

  /** The rows counted for an option are as many as the users whose ballot has it. */
  lemma CountIsVoters(responses: Responses, votes: seq<Vote>, s: State, poll: Id, option: Id)
    requires Refines(responses, votes, s.ballots) && Sound(s)
    ensures CountRows(responses, votes, poll, option) == |Voters(s.ballots, poll, option)|
  {
    DistinctWhenRefined(responses, votes, s);
    RowsAreResponders(responses, votes, poll, option);
    var ids, users := Responders(responses, votes, poll, option), Voters(s.ballots, poll, option);
    forall r | r in ids ensures responses[r].poll == poll && option in Chosen(votes, r) && responses[r].user in users {
      ChosenHas(votes, Vote(r, option));
      assert (poll, responses[r].user) in s.ballots;
    }
    forall u | u in users ensures exists r | r in ids :: responses[r].user == u {
      var k :| k in s.ballots && k.0 == poll && option in s.ballots[k] && k.1 == u;
      var r :| r in responses && Of(responses, r, k.0, k.1);
      ChosenHas(votes, Vote(r, option));
      assert Vote(r, option) in votes && r in ids;
    }
    UsersOf(responses, ids, users);
  }

  lemma {:induction false} NoneChosen(votes: seq<Vote>, r: Id)
    requires forall v | v in votes :: v.response != r
    ensures Chosen(votes, r) == []
  {
    if votes != [] {
      NoneChosen(votes[..|votes| - 1], r);
    }
  }

  lemma DistinctWhenRefined(responses: Responses, votes: seq<Vote>, s: State)
    requires Refines(responses, votes, s.ballots) && Sound(s)
    ensures Distinct(votes)
  {
    forall r ensures Distinct(Chosen(votes, r)) {
      if r !in responses {
        NoneChosen(votes, r);
      }
    }
    RowsAreDistinct(votes);
  }

  lemma {:induction false} OneRowMore(responses: Responses, votes: seq<Vote>, poll: Id, options: seq<Id>)
    requires votes != [] && Distinct(options)
    ensures var init, last := votes[..|votes| - 1], votes[|votes| - 1];
      SumRows(responses, votes, poll, options)
      == SumRows(responses, init, poll, options) + if InPoll(responses, last, poll) && last.option in options then 1 else 0
  {
    if options != [] {
      OneRowMore(responses, votes, poll, options[..|options| - 1]);
      assert options == options[..|options| - 1] + [options[|options| - 1]];
    }
  }

  lemma {:induction false} NoRowsNoSum(responses: Responses, poll: Id, options: seq<Id>)
    ensures SumRows(responses, [], poll, options) == 0
  {
    if options != [] {
      NoRowsNoSum(responses, poll, options[..|options| - 1]);
    }
  }

  lemma {:induction false} RowsAddUp(responses: Responses, votes: seq<Vote>, poll: Id, options: seq<Id>)
    requires Distinct(options) && forall v | v in votes && InPoll(responses, v, poll) :: v.option in options
    ensures SumRows(responses, votes, poll, options) == AllRows(responses, votes, poll)
  {
    if votes == [] {
      NoRowsNoSum(responses, poll, options);
    } else {
      RowsAddUp(responses, votes[..|votes| - 1], poll, options);
      OneRowMore(responses, votes, poll, options);
    }
  }

  lemma {:induction false} SumsAgree(responses: Responses, votes: seq<Vote>, s: State, poll: Id, options: seq<Id>)
    requires Refines(responses, votes, s.ballots) && Sound(s)
    ensures SumRows(responses, votes, poll, options) == SumVoters(s.ballots, poll, options)
  {
    if options != [] {
      SumsAgree(responses, votes, s, poll, options[..|options| - 1]);
      CountIsVoters(responses, votes, s, poll, options[|options| - 1]);
    }
  }

  /** The poll's vote rows are as many as its options have voters in all. */
  lemma TotalIsVoters(responses: Responses, votes: seq<Vote>, s: State, poll: Id)
    requires Refines(responses, votes, s.ballots) && Sound(s) && poll in s.polls
    ensures AllRows(responses, votes, poll) == SumVoters(s.ballots, poll, s.polls[poll].options)
  {
    forall v | v in votes && InPoll(responses, v, poll) ensures v.option in s.polls[poll].options {
      ChosenHas(votes, v);
      assert (poll, responses[v.response].user) in s.ballots;
    }
    RowsAddUp(responses, votes, poll, s.polls[poll].options);
    SumsAgree(responses, votes, s, poll, s.polls[poll].options);
  }

  /* ---- Percentages ---- */

  /** Hundredths, to the nearest, the even one when two are equally near. */
  function Hundredths(x: real): int {
    var y := x * 100.0;
    var f := y.Floor;
    if y - f as real < 0.5 then f
    else if y - f as real > 0.5 then f + 1
    else if f % 2 == 0 then f else f + 1
  }

  function Share(count: nat, total: nat): real
    requires total > 0
  {
    count as real / total as real * 100.0
  }

  function Percentage(count: nat, total: nat): real {
    if total == 0 then 0.0 else Hundredths(Share(count, total)) as real / 100.0
  }

  /** The nearest whole number of hundredths, and of two equally near ones the even one. */
  lemma HundredthsNearest(x: real)
    ensures var h := Hundredths(x); -0.5 <= x * 100.0 - h as real <= 0.5
    ensures var h := Hundredths(x); x * 100.0 - h as real == 0.5 || x * 100.0 - h as real == -0.5 ==> h % 2 == 0
  {}

  lemma RoundedIsNear(count: nat, total: nat)
    requires total > 0
    ensures Share(count, total) - 0.005 <= Percentage(count, total) <= Share(count, total) + 0.005
  {}

  lemma SharesAdd(a: nat, b: nat, total: nat)
    requires total > 0
    ensures Share(a + b, total) == Share(a, total) + Share(b, total)
  {}

  lemma WholeShare(t: real)
    requires t != 0.0
    ensures t / t * 100.0 == 100.0
  {}

  function SumPercentages(ballots: Ballots, poll: Id, options: seq<Id>, total: nat): real {
    if options == [] then 0.0
    else SumPercentages(ballots, poll, options[..|options| - 1], total)
         + Percentage(|Voters(ballots, poll, options[|options| - 1])|, total)
  }

  lemma {:induction false} PercentagesNearShares(ballots: Ballots, poll: Id, options: seq<Id>, total: nat)
    requires total > 0
    ensures var exact := Share(SumVoters(ballots, poll, options), total); var n := |options| as real;
      exact - 0.005 * n <= SumPercentages(ballots, poll, options, total) <= exact + 0.005 * n
  {
    if options != [] {
      var init, count := options[..|options| - 1], |Voters(ballots, poll, options[|options| - 1])|;
      PercentagesNearShares(ballots, poll, init, total);
      RoundedIsNear(count, total);
      SharesAdd(SumVoters(ballots, poll, init), count, total);
    }
  }

  /** As soon as there is a vote the percentages add up to 100, but for at most half a hundredth per option. */
  lemma PercentagesAddUp(ballots: Ballots, poll: Id, options: seq<Id>)
    ensures var total, n := SumVoters(ballots, poll, options), |options| as real;
      total > 0 ==> 100.0 - 0.005 * n <= SumPercentages(ballots, poll, options, total) <= 100.0 + 0.005 * n
  {
    var total := SumVoters(ballots, poll, options);
    if total > 0 {
      PercentagesNearShares(ballots, poll, options, total);
      WholeShare(total as real);
    }
  }

  /* ---- The service ---- */

  datatype Tally = Tally(option: Id, votes: nat, percentage: real)

  predicate MaySeeResults(p: Poll, status: Status, responded: bool, manager: bool) {
    manager || p.visibility == Always || (p.visibility == AfterVoting && responded)
    || (p.visibility == AfterClose && status in {Closed, Archived})
  }

  /** By visibility: never, to those who have voted, always, or once the poll is stored as closed or archived, or as live
      and past its end. A manager sees them in any case. */
  predicate ResultsAreOpen(p: Poll, manager: bool, now: Time, voted: bool) {
    manager ||
    match p.visibility
    case Hidden => false
    case AfterVoting => voted
    case Always => true
    case AfterClose => p.status == Closed || p.status == Archived || (p.status == Live && now >= p.ends)
  }

  class PollService {
    var polls: map<Id, Poll>
    var responses: Responses
    var votes: seq<Vote>
    ghost var ballots: Ballots

    ghost function View(): State
      reads this
    {
      State(polls, ballots)
    }

    ghost predicate Valid()
      reads this
    {
      Sound(View()) && Refines(responses, votes, ballots)
    }

    constructor (polls: map<Id, Poll>)
      requires forall p | p in polls :: Distinct(polls[p].options)
      ensures Valid() && View() == State(polls, map[])
    {
      this.polls := polls;
      responses, votes, ballots := map[], [], map[];
    }

    method FindResponse(poll: Id, user: User) returns (r: Option<Id>)
      requires Valid()
      ensures r.Some? <==> (poll, user) in ballots
      ensures r.Some? ==> Of(responses, r.value, poll, user)
      ensures r.None? ==> !HasResponse(responses, poll, user)
    {
      if id :| id in responses && Of(responses, id, poll, user) {
        r := Some(id);
      } else {
        r := None;
        assert !HasResponse(responses, poll, user);
        assert (poll, user) in ballots ==> HasResponse(responses, (poll, user).0, (poll, user).1);
      }
    }

    /** Deletes the vote rows of an earlier response, writes the response and then one row per selected option. */
    method ReplaceRows(existing: bool, response: Id, row: Response, selected: seq<Id>)
      requires !existing ==> forall v | v in votes :: v.response != response
      modifies this`responses, this`votes
      ensures responses == old(responses)[response := row]
      ensures votes == Without(old(votes), response) + Rows(response, selected)
    {
      NothingToDelete(votes, response);
      if existing {
        votes := Without(votes, response);
      }
      responses := responses[response := row];
      ghost var kept := votes;
      for i := 0 to |selected|
        modifies this`votes
        invariant votes == kept + Rows(response, selected[..i])
      {
        assert selected[..i + 1][..i] == selected[..i];
        votes := votes + [Vote(response, selected[i])];
      }
      assert selected[..|selected|] == selected;
    }

    /** Why a vote is refused, if it is. */
    method CheckVote(poll: Id, user: User, ids: seq<Id>, now: Time, eligible: bool) returns (outcome: Outcome, existing: Option<Id>)
      requires Valid()
      ensures outcome == CastOutcome(View(), Cast(poll, user, ids, now, eligible))
      ensures outcome == Done ==> if existing.Some? then Of(responses, existing.value, poll, user) else !HasResponse(responses, poll, user)
    {
      if poll !in polls {
        return Failed(NotFound), None;
      }
      var p := polls[poll];
      if Refreshed(p, now) != Live {
        return Failed(NotLive), None;
      }
      if !eligible {
        return Failed(NotEligible), None;
      }
      var selected := Dedup(ids);
      if exists o | o in selected :: o !in p.options {
        return Failed(WrongOption), None;
      }
      if p.mode == Single && |selected| != 1 {
        return Failed(SelectOne), None;
      }
      if Limited(p) && |selected| > p.max.value {
        return Failed(TooMany), None;
      }
      existing := FindResponse(poll, user);
      outcome := if existing.Some? && !p.allowChange then Failed(AlreadyVoted) else Done;
    }

    method CastVote(poll: Id, user: User, ids: seq<Id>, now: Time, eligible: bool, newId: Id) returns (outcome: Outcome)
      requires Valid() && newId !in responses
      modifies this
      ensures Valid()
      ensures outcome == CastOutcome(old(View()), Cast(poll, user, ids, now, eligible))
      ensures View() == Apply(old(View()), Cast(poll, user, ids, now, eligible))
      ensures outcome != Done ==> responses == old(responses) && votes == old(votes)
    {
      StepKeepsSound(View(), Cast(poll, user, ids, now, eligible));
      var existing;
      outcome, existing := CheckVote(poll, user, ids, now, eligible);
      if outcome != Done {
        return;
      }
      var selected := Dedup(ids);
      var response := if existing.Some? then existing.value else newId;
      VoteRefines(responses, votes, ballots, response, poll, user, now, selected);
      ReplaceRows(existing.Some?, response, Response(poll, user, now), selected);
      polls := polls[poll := polls[poll].(status := Live)];
      ballots := ballots[(poll, user) := selected];
    }

    method ChangeStatus(poll: Id, target: Status) returns (ok: bool)
      requires Valid()
      modifies this`polls
      ensures Valid() && View() == Apply(old(View()), Change(poll, target))
      ensures ok <==> poll in old(polls) && MayBecome(old(polls)[poll].status, target)
    {
      StepKeepsSound(View(), Change(poll, target));
      if poll !in polls {
        return false;
      }
      if target !in AllowedFrom(polls[poll].status) {
        return false;
      }
      polls := polls[poll := polls[poll].(status := target)];
      ok := true;
    }

    /** A user's own vote, read from the rows, is the ballot. */
    method VoteFor(poll: Id, user: User) returns (own: Option<seq<Id>>)
      requires Valid()
      ensures own == if (poll, user) in ballots then Some(ballots[(poll, user)]) else None
    {
      var response := FindResponse(poll, user);
      if response.None? {
        return None;
      }
      own := Some(Chosen(votes, response.value));
    }

    /** The tallies in option order: each counts the users whose ballot has the option. */
    method Results(poll: Id, user: User, manager: bool, eligible: bool, now: Time) returns (outcome: Outcome, rows: seq<Tally>)
      requires Valid()
      ensures outcome == (if poll !in polls then Failed(NotFound) else if !manager && !eligible then Failed(NotEligible)
        else if !MaySeeResults(polls[poll], Refreshed(polls[poll], now), (poll, user) in ballots, manager) then Failed(NotAvailable)
        else Done)
      ensures poll in polls && (manager || eligible) ==> (outcome == Done <==> ResultsAreOpen(polls[poll], manager, now, (poll, user) in ballots))
      ensures outcome != Done ==> rows == []
      ensures outcome == Done ==> |rows| == |polls[poll].options|
      ensures outcome == Done ==> var total := SumVoters(ballots, poll, polls[poll].options);
        forall i | 0 <= i < |rows| :: var o := polls[poll].options[i]; var n := |Voters(ballots, poll, o)|;
          rows[i] == Tally(o, n, Percentage(n, total))
    {
      rows := [];
      if poll !in polls {
        return Failed(NotFound), [];
      }
      var p := polls[poll];
      var status := Refreshed(p, now);
      if !manager && !eligible {
        return Failed(NotEligible), [];
      }
      var own := VoteFor(poll, user);
      if !MaySeeResults(p, status, own.Some?, manager) {
        return Failed(NotAvailable), [];
      }
      TotalIsVoters(responses, votes, View(), poll);
      var total := AllRows(responses, votes, poll);
      for i := 0 to |p.options|
        invariant |rows| == i
        invariant forall j | 0 <= j < i :: var o := p.options[j]; var n := |Voters(ballots, poll, o)|;
          rows[j] == Tally(o, n, Percentage(n, total))
      {
        var count := CountRows(responses, votes, poll, p.options[i]);
        CountIsVoters(responses, votes, View(), poll, p.options[i]);
        rows := rows + [Tally(p.options[i], count, Percentage(count, total))];
      }
      outcome := Done;
    }
  }

  lemma {:induction false} NothingToDelete(votes: seq<Vote>, response: Id)
    ensures (forall v | v in votes :: v.response != response) ==> Without(votes, response) == votes
  {
    if votes != [] {
      NothingToDelete(votes[..|votes| - 1], response);
      assert votes[..|votes| - 1] + [votes[|votes| - 1]] == votes;
    }
  }
}
