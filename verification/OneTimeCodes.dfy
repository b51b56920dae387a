/** One-time codes kept in Redis: issuing with its rate limits, verifying with its attempt limit. */
module OneTimeCodes {
  import opened Common

  type Time = int
  type Hash = nat

  /** Durations are in the unit of `Time`; the deployed values are in `DEPLOYED`. */
  datatype Settings = Settings(expiry: nat, cooldown: nat, maxAttempts: nat, ipMax: nat, deviceCooldown: nat,
                               globalMax: nat, window: nat)

  const DEPLOYED := Settings(300, 30, 5, 10, 10, 1000, 60)

  predicate Positive(st: Settings) {
    st.expiry > 0 && st.cooldown > 0 && st.deviceCooldown > 0 && st.window > 0
  }

  datatype Purpose = Verification | PasswordReset
  datatype Flow = Mobile | Email(purpose: Purpose)

  /** The key name schemes; `subject` is the normalized number or address. */
  datatype Key =
    | Code(flow: Flow, subject: string)
    | Attempts(flow: Flow, subject: string)
    | Cooldown(flow: Flow, subject: string)
    | IpWindow(ip: string, window: int)
    | Device(device: string)
    | GlobalWindow(window: int)

  datatype Cell = Cell(value: nat, expiry: Option<Time>)
  type Store = map<Key, Cell>

  datatype Command =
    | Get(key: Key)
    | Claim(key: Key, ttl: nat)
    | Put(key: Key, value: nat, ttl: nat)
    | Incr(key: Key)
    | Expire(key: Key, ttl: nat)
    | Del(key: Key)

  datatype Reply = Nothing | Got(found: Option<nat>) | Claimed(ok: bool) | Counted(count: nat)
  datatype Call = Call(command: Command, at: Time, reply: Reply)

  /** A key exists until its time to live has run out. */
  predicate Live(s: Store, k: Key, at: Time) {
    k in s && (s[k].expiry.None? || at < s[k].expiry.value)
  }

  function Value(s: Store, k: Key, at: Time): nat {
    if Live(s, k, at) then s[k].value else 0
  }

  function ReplyOf(s: Store, c: Command, at: Time): Reply {
    match c
    case Get(k) => Got(if Live(s, k, at) then Some(s[k].value) else None)
    case Claim(k, _) => Claimed(!Live(s, k, at))
    case Incr(k) => Counted(Value(s, k, at) + 1)
    case _ => Nothing
  }

  /** Redis: counting keeps the time to live, a key that has run out counts from nothing. */
  function Exec(s: Store, c: Command, at: Time): Store {
    match c
    case Get(_) => s
    case Claim(k, ttl) => if Live(s, k, at) then s else s[k := Cell(1, Some(at + ttl))]
    case Put(k, v, ttl) => s[k := Cell(v, Some(at + ttl))]
    case Incr(k) => s[k := Cell(Value(s, k, at) + 1, if Live(s, k, at) then s[k].expiry else None)]
    case Expire(k, ttl) => if Live(s, k, at) then s[k := s[k].(expiry := Some(at + ttl))] else s
    case Del(k) => s - {k}
  }

  function After(s: Store, calls: seq<Call>): Store {
    if calls == [] then s
    else
      var c := calls[|calls| - 1];
      Exec(After(s, calls[..|calls| - 1]), c.command, c.at)
  }

  /** The calls ran one after the other, at times that never go back, and got the replies Redis gives. */
  predicate Ran(s: Store, from: Time, calls: seq<Call>) {
    calls == [] ||
    (var init, c := calls[..|calls| - 1], calls[|calls| - 1];
     Ran(s, from, init) && Last(from, init) <= c.at && c.reply == ReplyOf(After(s, init), c.command, c.at))
  }

  function Last(from: Time, calls: seq<Call>): Time {
    if calls == [] then from else calls[|calls| - 1].at
  }

  lemma {:induction false} RanInTwoParts(s: Store, from: Time, a: seq<Call>, b: seq<Call>)
    ensures After(s, a + b) == After(After(s, a), b)
    ensures Last(from, a + b) == Last(Last(from, a), b)
    ensures Ran(s, from, a + b) <==> Ran(s, from, a) && Ran(After(s, a), Last(from, a), b)
  {
    if b == [] {
      assert a + b == a;
    } else {
      assert (a + b)[..|a + b| - 1] == a + b[..|b| - 1];
      RanInTwoParts(s, from, a, b[..|b| - 1]);
    }
  }

  lemma {:induction false} TimesNeverGoBack(s: Store, from: Time, calls: seq<Call>, i: nat)
    requires Ran(s, from, calls) && i < |calls|
    ensures from <= calls[i].at <= Last(from, calls)
  {
    var init := calls[..|calls| - 1];
    if i < |init| {
      TimesNeverGoBack(s, from, init, i);
    } else if init != [] {
      TimesNeverGoBack(s, from, init, |init| - 1);
    }
  }

  lemma {:induction false} PrefixRan(s: Store, from: Time, calls: seq<Call>, n: nat)
    requires Ran(s, from, calls) && n <= |calls|
    ensures Ran(s, from, calls[..n]) && Last(from, calls[..n]) <= Last(from, calls)
  {
    assert calls == calls[..n] + calls[n..];
    RanInTwoParts(s, from, calls[..n], calls[n..]);
    if n == 0 {
      if |calls| > 0 {
        TimesNeverGoBack(s, from, calls, 0);
      }
    } else {
      TimesNeverGoBack(s, from, calls, n - 1);
    }
  }

  /* ---- What the service does to each kind of key ---- */

  predicate Disciplined(st: Settings, c: Call) {
    var k := c.command.key;
    match k
    case Code(_, _) => c.command.Get? || c.command.Del? || (c.command.Put? && c.command.ttl == st.expiry)
    case Attempts(_, _) => c.command.Get? || c.command.Del? || c.command.Incr? || c.command == Expire(k, st.expiry)
    case Cooldown(_, _) => c.command.Get? || c.command == Claim(k, st.cooldown)
    case IpWindow(_, w) => (c.command.Incr? && w * st.window <= c.at < (w + 1) * st.window) || c.command == Expire(k, st.window)
    case GlobalWindow(w) => (c.command.Incr? && w * st.window <= c.at < (w + 1) * st.window) || c.command == Expire(k, st.window)
    case Device(_) => c.command == Claim(k, st.deviceCooldown) || c.command == Put(k, 1, st.deviceCooldown)
  }

  predicate AllDisciplined(st: Settings, calls: seq<Call>) {
    forall c | c in calls :: Disciplined(st, c)
  }

  /* ---- Rate limits, for calls of any number of requests in any interleaving ---- */

  predicate Claims(c: Call, k: Key) {
    c.command.Claim? && c.command.key == k && c.reply == Claimed(true)
  }

  lemma {:induction false} ClaimHolds(st: Settings, s: Store, from: Time, calls: seq<Call>, k: Key, i: nat)
    requires Ran(s, from, calls) && AllDisciplined(st, calls) && k.Cooldown?
    requires i < |calls| && Claims(calls[i], k)
    ensures k in After(s, calls) && After(s, calls)[k].expiry.Some?
    ensures After(s, calls)[k].expiry.value >= calls[i].at + st.cooldown
  {
    var init, c := calls[..|calls| - 1], calls[|calls| - 1];
    assert Disciplined(st, c);
    if i < |init| {
      assert calls[i] == init[i];
      ClaimHolds(st, s, from, init, k, i);
      TimesNeverGoBack(s, from, calls, i);
    }
  }

  /** Two successful claims of one cooldown key are at least the cooldown apart, whatever runs in between. */
  lemma ClaimsAreApart(st: Settings, s: Store, from: Time, calls: seq<Call>, k: Key, i: nat, j: nat)
    requires Ran(s, from, calls) && AllDisciplined(st, calls) && k.Cooldown?
    requires i < j < |calls| && Claims(calls[i], k) && Claims(calls[j], k)
    ensures calls[j].at >= calls[i].at + st.cooldown
  {
    var upTo := calls[..j + 1];
    PrefixRan(s, from, calls, j + 1);
    assert upTo[..|upTo| - 1] == calls[..j];
    assert forall c | c in calls[..j] :: c in calls;
    ClaimHolds(st, s, from, calls[..j], k, i);
  }

  predicate Counts(c: Call, k: Key) {
    c.command == Incr(k)
  }

  function Increments(calls: seq<Call>, k: Key): nat {
    if calls == [] then 0
    else Increments(calls[..|calls| - 1], k) + (if Counts(calls[|calls| - 1], k) then 1 else 0)
  }

  /** How many increments of the key were answered with a count within the maximum. */
  function Passes(calls: seq<Call>, k: Key, max: nat): nat {
    if calls == [] then 0
    else
      var c := calls[|calls| - 1];
      Passes(calls[..|calls| - 1], k, max) + (if Counts(c, k) && c.reply.Counted? && c.reply.count <= max then 1 else 0)
  }

  predicate WindowKey(k: Key) {
    k.IpWindow? || k.GlobalWindow?
  }

  /** A window's counter cannot run out before the window is over, so it counts every increment. */
  lemma {:induction false} CounterIsExact(st: Settings, s: Store, from: Time, calls: seq<Call>, k: Key, max: nat)
    requires Ran(s, from, calls) && AllDisciplined(st, calls) && WindowKey(k) && k !in s
    ensures var s' := After(s, calls); var n := Increments(calls, k);
      if n == 0 then k !in s'
      else k in s' && s'[k].value == n && Last(from, calls) >= k.window * st.window
           && (s'[k].expiry.Some? ==> s'[k].expiry.value >= (k.window + 1) * st.window)
    ensures Passes(calls, k, max) == if Increments(calls, k) <= max then Increments(calls, k) else max
  {
    if calls != [] {
      var init, c := calls[..|calls| - 1], calls[|calls| - 1];
      assert Disciplined(st, c);
      CounterIsExact(st, s, from, init, k, max);
    }
  }

  /** At most the maximum passes in each aligned window. */
  lemma WindowLimit(st: Settings, s: Store, from: Time, calls: seq<Call>, k: Key, max: nat)
    requires Ran(s, from, calls) && AllDisciplined(st, calls) && WindowKey(k) && k !in s
    ensures Passes(calls, k, max) <= max
    ensures Increments(calls, k) <= max ==> Passes(calls, k, max) == Increments(calls, k)
  {
    CounterIsExact(st, s, from, calls, k, max);
  }

  predicate PassesWithin(c: Call, ip: string, max: nat, a: Time, b: Time) {
    && c.command.Incr? && c.command.key.IpWindow? && c.command.key.ip == ip
    && c.reply.Counted? && c.reply.count <= max && a <= c.at < b
  }

  /** Passes of one address, under whatever window, at times from `a` up to `b`. */
  function IpPasses(calls: seq<Call>, ip: string, max: nat, a: Time, b: Time): nat {
    if calls == [] then 0
    else IpPasses(calls[..|calls| - 1], ip, max, a, b) + (if PassesWithin(calls[|calls| - 1], ip, max, a, b) then 1 else 0)
  }

  lemma Scaled(a: int, b: int, n: nat)
    ensures a <= b ==> a * n <= b * n
  {}

  lemma WindowOf(t: Time, window: nat, w: int)
    requires window > 0 && w * window <= t < (w + 1) * window
    ensures w == t / window
  {
    var q := t / window;
    assert t == q * window + t % window;
    Scaled(w + 1, q, window);
    Scaled(q + 1, w, window);
  }

  lemma TwoWindows(t: Time, a: Time, window: nat)
    requires window > 0 && a <= t < a + window
    ensures t / window == a / window || t / window == a / window + 1
  {
    var q := a / window;
    assert a == q * window + a % window;
    if t < (q + 1) * window {
      WindowOf(t, window, q);
    } else {
      assert (q + 2) * window == q * window + 2 * window;
      WindowOf(t, window, q + 1);
    }
  }

  lemma {:induction false} IntervalInWindows(st: Settings, calls: seq<Call>, ip: string, max: nat, a: Time)
    requires Positive(st) && AllDisciplined(st, calls)
    ensures IpPasses(calls, ip, max, a, a + st.window)
            <= Passes(calls, IpWindow(ip, a / st.window), max) + Passes(calls, IpWindow(ip, a / st.window + 1), max)
  {
    if calls != [] {
      var init, c := calls[..|calls| - 1], calls[|calls| - 1];
      IntervalInWindows(st, init, ip, max, a);
      if PassesWithin(c, ip, max, a, a + st.window) {
        assert Disciplined(st, c);
        WindowOf(c.at, st.window, c.command.key.window);
        TwoWindows(c.at, a, st.window);
      }
    }
  }

  /** Any interval of one window length sees at most twice the maximum. */
  lemma IntervalLimit(st: Settings, from: Time, calls: seq<Call>, ip: string, max: nat, a: Time)
    requires Positive(st) && Ran(map[], from, calls) && AllDisciplined(st, calls)
    ensures IpPasses(calls, ip, max, a, a + st.window) <= 2 * max
  {
    IntervalInWindows(st, calls, ip, max, a);
    WindowLimit(st, map[], from, calls, IpWindow(ip, a / st.window), max);
    WindowLimit(st, map[], from, calls, IpWindow(ip, a / st.window + 1), max);
  }

  /* ---- Exactly which intervals keep to the maximum ---- */

  /** No run has more than `max` passes of the address in the interval of one window length from `a` on. */
  ghost predicate IntervalKept(st: Settings, ip: string, max: nat, a: Time) {
    forall from, calls | Ran(map[], from, calls) && AllDisciplined(st, calls) :: IpPasses(calls, ip, max, a, a + st.window) <= max
  }

  lemma {:induction false} AlignedInOneWindow(st: Settings, calls: seq<Call>, ip: string, max: nat, a: Time)
    requires Positive(st) && AllDisciplined(st, calls) && a % st.window == 0
    ensures IpPasses(calls, ip, max, a, a + st.window) <= Passes(calls, IpWindow(ip, a / st.window), max)
  {
    if calls != [] {
      var init, c := calls[..|calls| - 1], calls[|calls| - 1];
      AlignedInOneWindow(st, init, ip, max, a);
      if PassesWithin(c, ip, max, a, a + st.window) {
        assert Disciplined(st, c);
        WindowOf(c.at, st.window, c.command.key.window);
        assert a == (a / st.window) * st.window;
        WindowOf(c.at, st.window, a / st.window);
      }
    }
  }

  /** n requests at one time: each counts the address and renews the counter's time to live. */
  function Burst(st: Settings, k: Key, at: Time, n: nat): seq<Call> {
    if n == 0 then []
    else Burst(st, k, at, n - 1) + [Call(Incr(k), at, Counted(n)), Call(Expire(k, st.window), at, Nothing)]
  }

  lemma TwoMoreCalls(s: Store, from: Time, calls: seq<Call>, c: Call, d: Call)
    requires Ran(s, from, calls) && Last(from, calls) <= c.at <= d.at
    requires c.reply == ReplyOf(After(s, calls), c.command, c.at)
    requires d.reply == ReplyOf(Exec(After(s, calls), c.command, c.at), d.command, d.at)
    ensures Ran(s, from, calls + [c, d]) && Last(from, calls + [c, d]) == d.at
    ensures After(s, calls + [c, d]) == Exec(Exec(After(s, calls), c.command, c.at), d.command, d.at)
  {
    var one, two := calls + [c], calls + [c, d];
    assert one[..|one| - 1] == calls && two[..|two| - 1] == one;
    assert Ran(s, from, one) && After(s, one) == Exec(After(s, calls), c.command, c.at);
  }

  lemma CountAndRenew(st: Settings, s: Store, k: Key, at: Time, n: nat)
    requires Positive(st) && n >= 1 && k !in s
    ensures var before := if n == 1 then s else s[k := Cell(n - 1, Some(at + st.window))];
      && ReplyOf(before, Incr(k), at) == Counted(n)
      && Exec(Exec(before, Incr(k), at), Expire(k, st.window), at) == s[k := Cell(n, Some(at + st.window))]
  {}

  lemma {:induction false} BurstRuns(st: Settings, s: Store, from: Time, k: Key, at: Time, n: nat)
    requires Positive(st) && WindowKey(k) && k !in s && from <= at
    ensures var calls := Burst(st, k, at, n);
      && Ran(s, from, calls) && from <= Last(from, calls) <= at
      && After(s, calls) == if n == 0 then s else s[k := Cell(n, Some(at + st.window))]
  {
    if n > 0 {
      BurstRuns(st, s, from, k, at, n - 1);
      CountAndRenew(st, s, k, at, n);
      TwoMoreCalls(s, from, Burst(st, k, at, n - 1), Call(Incr(k), at, Counted(n)), Call(Expire(k, st.window), at, Nothing));
    }
  }

  lemma {:induction false} BurstPasses(st: Settings, ip: string, w: int, at: Time, n: nat, max: nat, a: Time, b: Time)
    requires n <= max && a <= at < b && w * st.window <= at < (w + 1) * st.window
    ensures AllDisciplined(st, Burst(st, IpWindow(ip, w), at, n))
    ensures IpPasses(Burst(st, IpWindow(ip, w), at, n), ip, max, a, b) == n
  {
    if n > 0 {
      BurstPasses(st, ip, w, at, n - 1, max, a, b);
      var init := Burst(st, IpWindow(ip, w), at, n - 1);
      var c, d := Call(Incr(IpWindow(ip, w)), at, Counted(n)), Call(Expire(IpWindow(ip, w), st.window), at, Nothing);
      PassesOfBoth(init, [c, d], ip, max, a, b);
      assert [c, d][..1] == [c] && [c][..0] == [];
      assert IpPasses([c], ip, max, a, b) == 1;
    }
  }

  lemma {:induction false} PassesOfBoth(x: seq<Call>, y: seq<Call>, ip: string, max: nat, a: Time, b: Time)
    ensures IpPasses(x + y, ip, max, a, b) == IpPasses(x, ip, max, a, b) + IpPasses(y, ip, max, a, b)
  {
    if y == [] {
      assert x + y == x;
    } else {
      assert (x + y)[..|x + y| - 1] == x + y[..|y| - 1];
      PassesOfBoth(x, y[..|y| - 1], ip, max, a, b);
    }
  }

  lemma TwoBursts(st: Settings, k: Key, l: Key, at: Time, later: Time, n: nat)
    requires Positive(st) && WindowKey(k) && WindowKey(l) && k != l && at <= later
    ensures Ran(map[], at, Burst(st, k, at, n) + Burst(st, l, later, n))
  {
    var first, second := Burst(st, k, at, n), Burst(st, l, later, n);
    BurstRuns(st, map[], at, k, at, n);
    BurstRuns(st, After(map[], first), Last(at, first), l, later, n);
    RanInTwoParts(map[], at, first, second);
  }

  /** The start of the next window lies inside an interval that does not start with one, and so does the time before. */
  lemma NextWindow(a: Time, window: nat) returns (next: Time)
    requires window > 0 && a % window != 0
    ensures next == (a / window + 1) * window && a <= next - 1 && next < a + window
    ensures (a / window) * window <= next - 1 && next < (a / window + 2) * window
  {
    next := (a / window + 1) * window;
    assert a == (a / window) * window + a % window;
    assert next == (a / window) * window + window && (a / window + 2) * window == next + window;
  }

  /** Any interval that does not start with a window sees twice the maximum in some run: one burst at the end of its first
      window and one at the start of the next. */
  lemma TwiceIsReached(st: Settings, ip: string, max: nat, a: Time) returns (from: Time, calls: seq<Call>)
    requires Positive(st) && a % st.window != 0
    ensures Ran(map[], from, calls) && AllDisciplined(st, calls)
    ensures IpPasses(calls, ip, max, a, a + st.window) == 2 * max
  {
    var w := a / st.window;
    var next := NextWindow(a, st.window);
    from := next - 1;
    var first, second := Burst(st, IpWindow(ip, w), next - 1, max), Burst(st, IpWindow(ip, w + 1), next, max);
    TwoBursts(st, IpWindow(ip, w), IpWindow(ip, w + 1), next - 1, next, max);
    BurstPasses(st, ip, w, next - 1, max, max, a, a + st.window);
    BurstPasses(st, ip, w + 1, next, max, max, a, a + st.window);
    PassesOfBoth(first, second, ip, max, a, a + st.window);
    calls := first + second;
  }

  /** The maximum holds for an interval of one window length, over all runs, exactly when it starts with a window. */
  lemma IntervalKeptIffAligned(st: Settings, ip: string, max: nat, a: Time)
    requires Positive(st) && max >= 1
    ensures IntervalKept(st, ip, max, a) <==> a % st.window == 0
  {
    if a % st.window == 0 {
      forall from, calls | Ran(map[], from, calls) && AllDisciplined(st, calls)
        ensures IpPasses(calls, ip, max, a, a + st.window) <= max
      {
        AlignedInOneWindow(st, calls, ip, max, a);
        WindowLimit(st, map[], from, calls, IpWindow(ip, a / st.window), max);
      }
    } else {
      var from, calls := TwiceIsReached(st, ip, max, a);
      assert IpPasses(calls, ip, max, a, a + st.window) > max;
    }
  }

  /** As deployed: at most 10 passes of one address per minute of the clock, and at most 20 in any 60 seconds. */
  lemma DeployedLimits(from: Time, calls: seq<Call>, ip: string, a: Time)
    requires Ran(map[], from, calls) && AllDisciplined(DEPLOYED, calls)
    ensures Positive(DEPLOYED) && IpPasses(calls, ip, DEPLOYED.ipMax, a, a + 60) <= 20
    ensures a % 60 == 0 ==> IpPasses(calls, ip, DEPLOYED.ipMax, a, a + 60) <= 10
  {
    IntervalLimit(DEPLOYED, from, calls, ip, DEPLOYED.ipMax, a);
    IntervalKeptIffAligned(DEPLOYED, ip, DEPLOYED.ipMax, a);
  }

  /* ---- Sessions: one request to issue or to verify a code, alone on the store ---- */

  datatype Outcome = Sent | TooSoon | Limited | Right | Wrong | TooMany | Expired

  datatype Session =
    | Issue(flow: Flow, subject: string, ip: string, device: string, hash: Hash, calls: seq<Call>, outcome: Outcome)
    | Verify(flow: Flow, subject: string, hash: Hash, calls: seq<Call>, outcome: Outcome)

  predicate OnCode(c: Call, flow: Flow, subject: string) {
    c.command.key == Code(flow, subject) || c.command.key == Attempts(flow, subject)
  }

  /** A call of a gate let the request through. */
  predicate Lets(st: Settings, c: Call) {
    match c.command
    case Get(_) => c.reply == Got(None)
    case Claim(_, _) => c.reply == Claimed(true)
    case Incr(k) => c.reply.Counted? && c.reply.count <= (if k.GlobalWindow? then st.globalMax else st.ipMax)
    case _ => true
  }

  predicate ClaimedIn(calls: seq<Call>, k: Key) {
    exists c | c in calls :: Claims(c, k)
  }

  predicate IpPassedIn(st: Settings, calls: seq<Call>, ip: string) {
    exists c | c in calls :: PassesWithin(c, ip, st.ipMax, c.at, c.at + 1)
  }

  predicate GlobalPassedIn(st: Settings, calls: seq<Call>) {
    exists c | c in calls :: c.command.Incr? && c.command.key.GlobalWindow? && c.reply.Counted? && c.reply.count <= st.globalMax
  }

  predicate IsGate(c: Call) {
    c.command.key.Cooldown? || c.command.key.IpWindow? || c.command.key.Device? || c.command.key.GlobalWindow?
  }

  predicate GatesOnly(calls: seq<Call>) {
    forall c | c in calls :: IsGate(c)
  }

  predicate AllLet(st: Settings, calls: seq<Call>) {
    forall c | c in calls :: Lets(st, c)
  }

  /** The request stopped at the first gate that did not let it through, right after that gate's calls. */
  predicate RefusedAtEnd(st: Settings, calls: seq<Call>, byCooldown: bool) {
    exists i | 0 <= i < |calls| ::
      && !Lets(st, calls[i]) && i + 2 >= |calls| && (calls[i].command.key.Cooldown? <==> byCooldown)
      && AllLet(st, calls[..i])
  }

  /** Every gate the request has to pass is among the calls. */
  predicate PassedAllGates(st: Settings, calls: seq<Call>, flow: Flow, subject: string, ip: string, device: string) {
    && AllLet(st, calls)
    && ClaimedIn(calls, Cooldown(flow, subject))
    && (flow.Mobile? ==> GlobalPassedIn(st, calls))
    && (flow.Mobile? && ip != "" ==> IpPassedIn(st, calls, ip))
    && (flow.Mobile? && device != "" ==> ClaimedIn(calls, Device(device)))
  }

  /** A request sends a code exactly when every gate lets it through; only then is the code replaced and the count of
      wrong tries cleared. */
  predicate Issued(st: Settings, i: Session)
    requires i.Issue?
  {
    var n := |i.calls|;
    && AllDisciplined(st, i.calls)
    && i.outcome in {Sent, TooSoon, Limited}
    && if i.outcome == Sent then
         && n >= 2 && GatesOnly(i.calls[..n - 2]) && PassedAllGates(st, i.calls[..n - 2], i.flow, i.subject, i.ip, i.device)
         && i.calls[n - 2].command == Put(Code(i.flow, i.subject), i.hash, st.expiry)
         && i.calls[n - 1].command == Del(Attempts(i.flow, i.subject))
       else GatesOnly(i.calls) && RefusedAtEnd(st, i.calls, i.outcome == TooSoon)
  }

  /** The call refuses a request: a key looked at or claimed is there, or the count of a window is beyond its maximum. */
  predicate Stops(st: Settings, c: Call) {
    || (c.command.Get? && c.reply.Got? && c.reply.found.Some?)
    || (c.command.Claim? && c.reply == Claimed(false))
    || (c.command.Incr? && !c.command.key.GlobalWindow? && c.reply.Counted? && c.reply.count > st.ipMax)
    || (c.command.Incr? && c.command.key.GlobalWindow? && c.reply.Counted? && c.reply.count > st.globalMax)
  }

  predicate Fits(c: Call) {
    match c.command
    case Get(_) => c.reply.Got?
    case Claim(_, _) => c.reply.Claimed?
    case Incr(_) => c.reply.Counted?
    case _ => true
  }

  lemma {:induction false} RepliesFit(s: Store, from: Time, calls: seq<Call>)
    requires Ran(s, from, calls)
    ensures forall c | c in calls :: Fits(c)
  {
    if calls != [] {
      RepliesFit(s, from, calls[..|calls| - 1]);
      assert calls == calls[..|calls| - 1] + [calls[|calls| - 1]];
    }
  }

  lemma SentIsNotStopped(st: Settings, i: Session, c: Call)
    requires i.Issue? && Issued(st, i) && i.outcome == Sent && c in i.calls
    ensures !Stops(st, c)
  {
    var n := |i.calls|;
    var k :| 0 <= k < n && i.calls[k] == c;
    assert k < n - 2 ==> i.calls[..n - 2][k] == c && c in i.calls[..n - 2];
  }

  lemma RefusedIsStopped(st: Settings, calls: seq<Call>, byCooldown: bool)
    requires RefusedAtEnd(st, calls, byCooldown) && forall c | c in calls :: Fits(c)
    ensures exists c | c in calls :: Stops(st, c) && (c.command.key.Cooldown? <==> byCooldown)
  {
    var k :| 0 <= k < |calls| && !Lets(st, calls[k]) && (calls[k].command.key.Cooldown? <==> byCooldown);
    assert calls[k] in calls && Fits(calls[k]);
    assert Stops(st, calls[k]);
  }

  /** A request sends no code exactly when one of its calls refuses it: as too soon if a call on a cooldown does. */
  lemma RefusedIffStopped(st: Settings, s: Store, from: Time, i: Session)
    requires i.Issue? && Issued(st, i) && Ran(s, from, i.calls)
    ensures i.outcome != Sent <==> exists c | c in i.calls :: Stops(st, c)
    ensures i.outcome == TooSoon ==> exists c | c in i.calls :: Stops(st, c) && c.command.key.Cooldown?
    ensures i.outcome == Limited ==> exists c | c in i.calls :: Stops(st, c) && !c.command.key.Cooldown?
  {
    if i.outcome == Sent {
      forall c | c in i.calls ensures !Stops(st, c) {
        SentIsNotStopped(st, i, c);
      }
    } else {
      RepliesFit(s, from, i.calls);
      RefusedIsStopped(st, i.calls, i.outcome == TooSoon);
    }
  }

  /** A verification reads the count, then the code, and compares only when the count is below the maximum. */
  predicate Verified(st: Settings, v: Session)
    requires v.Verify?
  {
    var n, code, attempts := |v.calls|, Code(v.flow, v.subject), Attempts(v.flow, v.subject);
    && AllDisciplined(st, v.calls)
    && n >= 1 && v.calls[0].command == Get(attempts) && v.calls[0].reply.Got?
    && if Tries(v.calls[0].reply) >= st.maxAttempts then n == 1 && v.outcome == TooMany
       else
         && n >= 2 && v.calls[1].command == Get(code) && v.calls[1].reply.Got?
         && if v.calls[1].reply.found.None? then n == 2 && v.outcome == Expired
            else if v.calls[1].reply.found.value == v.hash then
              n == 4 && v.calls[2].command == Del(code) && v.calls[3].command == Del(attempts) && v.outcome == Right
            else
              n == 4 && v.calls[2].command == Incr(attempts) && v.calls[3].command == Expire(attempts, st.expiry)
              && v.outcome == Wrong
  }

  function Tries(r: Reply): nat {
    if r.Got? && r.found.Some? then r.found.value else 0
  }

  predicate Proper(st: Settings, x: Session) {
    if x.Issue? then Issued(st, x) else Verified(st, x)
  }

  function Calls(sessions: seq<Session>): seq<Call> {
    if sessions == [] then [] else Calls(sessions[..|sessions| - 1]) + sessions[|sessions| - 1].calls
  }

  /** What became of the latest code sent to a subject: its hash and how often it was tried wrongly and rightly. */
  datatype Tally = Tally(sent: Option<Hash>, wrong: nat, right: nat)

  function Count(sessions: seq<Session>, flow: Flow, subject: string): Tally {
    if sessions == [] then Tally(None, 0, 0)
    else
      Tallied(Count(sessions[..|sessions| - 1], flow, subject), sessions[|sessions| - 1], flow, subject)
  }

  function Tallied(t: Tally, x: Session, flow: Flow, subject: string): Tally {
    if x.flow != flow || x.subject != subject then t
    else if x.Issue? && x.outcome == Sent then Tally(Some(x.hash), 0, 0)
    else if x.Verify? && x.outcome == Wrong then t.(wrong := t.wrong + 1)
    else if x.Verify? && x.outcome == Right then t.(right := t.right + 1)
    else t
  }

  /** How the two keys of a subject stand to its tally: while a code is live it is the latest one sent, it has not been
      used, and the count is that of its wrong tries, in a key that will not run out before the code does. */
  predicate Told(st: Settings, s: Store, now: Time, t: Tally, flow: Flow, subject: string) {
    var code, attempts := Code(flow, subject), Attempts(flow, subject);
    && t.wrong <= st.maxAttempts && t.right <= 1
    && (code in s ==> s[code].expiry.Some? && s[code].expiry.value <= now + st.expiry)
    && (Live(s, code, now) ==>
         && t.right == 0 && t.sent == Some(s[code].value) && Value(s, attempts, now) == t.wrong
         && (t.wrong == 0 ==> !Live(s, attempts, now))
         && (t.wrong > 0 ==>
              attempts in s && s[attempts].expiry.Some? && s[attempts].expiry.value >= s[code].expiry.value))
  }

  predicate SameCells(s: Store, s': Store, flow: Flow, subject: string) {
    var code, attempts := Code(flow, subject), Attempts(flow, subject);
    && (code in s <==> code in s') && (code in s ==> s'[code] == s[code])
    && (attempts in s <==> attempts in s') && (attempts in s ==> s'[attempts] == s[attempts])
  }

  lemma ToldLater(st: Settings, s: Store, s': Store, now: Time, later: Time, t: Tally, flow: Flow, subject: string)
    requires Told(st, s, now, t, flow, subject) && now <= later && SameCells(s, s', flow, subject)
    ensures Told(st, s', later, t, flow, subject)
  {}

  lemma {:induction false} OtherCalls(s: Store, calls: seq<Call>, flow: Flow, subject: string)
    requires forall c | c in calls :: !OnCode(c, flow, subject)
    ensures SameCells(s, After(s, calls), flow, subject)
  {
    if calls != [] {
      OtherCalls(s, calls[..|calls| - 1], flow, subject);
      assert !OnCode(calls[|calls| - 1], flow, subject);
    }
  }

  lemma TwoCalls(s: Store, from: Time, calls: seq<Call>)
    requires |calls| == 2 && Ran(s, from, calls)
    ensures from <= calls[0].at <= calls[1].at == Last(from, calls)
    ensures calls[0].reply == ReplyOf(s, calls[0].command, calls[0].at)
    ensures var s' := Exec(s, calls[0].command, calls[0].at);
      calls[1].reply == ReplyOf(s', calls[1].command, calls[1].at) && After(s, calls) == Exec(s', calls[1].command, calls[1].at)
  {}

  lemma SendKeepsTold(st: Settings, s: Store, from: Time, x: Session, t: Tally)
    requires x.Issue? && x.outcome == Sent && Issued(st, x) && Ran(s, from, x.calls)
    requires Told(st, s, from, t, x.flow, x.subject)
    ensures Told(st, After(s, x.calls), Last(from, x.calls), Tally(Some(x.hash), 0, 0), x.flow, x.subject)
  {}

  lemma TryKeepsTold(st: Settings, s: Store, from: Time, x: Session, t: Tally)
    requires x.Verify? && x.outcome in {Wrong, Right} && Verified(st, x) && Ran(s, from, x.calls)
    requires Told(st, s, from, t, x.flow, x.subject)
    ensures Told(st, After(s, x.calls), Last(from, x.calls), Tallied(t, x, x.flow, x.subject), x.flow, x.subject)
  {
    var looks, changes := x.calls[..2], x.calls[2..];
    assert x.calls == looks + changes;
    RanInTwoParts(s, from, looks, changes);
    TwoCalls(s, from, looks);
    TwoCalls(After(s, looks), Last(from, looks), changes);
  }

  lemma OneCall(s: Store, from: Time, calls: seq<Call>)
    requires |calls| == 1 && Ran(s, from, calls)
    ensures from <= calls[0].at == Last(from, calls)
    ensures calls[0].reply == ReplyOf(s, calls[0].command, calls[0].at)
    ensures After(s, calls) == Exec(s, calls[0].command, calls[0].at)
  {}

  /** A verification that stops early changes nothing. */
  lemma ReadsOnly(st: Settings, s: Store, from: Time, x: Session)
    requires x.Verify? && x.outcome in {TooMany, Expired} && Verified(st, x) && Ran(s, from, x.calls)
    ensures After(s, x.calls) == s && from <= Last(from, x.calls)
  {}

  lemma SessionKeepsTold(st: Settings, s: Store, from: Time, x: Session, t: Tally, flow: Flow, subject: string)
    requires Proper(st, x) && Ran(s, from, x.calls)
    requires Told(st, s, from, t, flow, subject)
    ensures Told(st, After(s, x.calls), Last(from, x.calls), Tallied(t, x, flow, subject), flow, subject)
  {
    PrefixRan(s, from, x.calls, 0);
    if x.flow == flow && x.subject == subject && x.outcome == Sent && x.Issue? {
      SendKeepsTold(st, s, from, x, t);
    } else if x.flow == flow && x.subject == subject && x.outcome in {Wrong, Right} && x.Verify? {
      TryKeepsTold(st, s, from, x, t);
    } else if x.Verify? && x.outcome in {TooMany, Expired} {
      ReadsOnly(st, s, from, x);
      ToldLater(st, s, s, from, Last(from, x.calls), t, flow, subject);
    } else {
      NotOnCode(st, x, flow, subject);
      OtherCalls(s, x.calls, flow, subject);
      ToldLater(st, s, After(s, x.calls), from, Last(from, x.calls), t, flow, subject);
    }
  }

  lemma NotOnCode(st: Settings, x: Session, flow: Flow, subject: string)
    requires Proper(st, x)
    requires x.flow != flow || x.subject != subject || (x.Issue? && x.outcome != Sent)
    ensures forall c | c in x.calls :: !OnCode(c, flow, subject)
  {
    forall c | c in x.calls ensures !OnCode(c, flow, subject) {
      var i :| 0 <= i < |x.calls| && x.calls[i] == c;
      if x.Verify? {
        assert i < 4;
        assert x.calls[i].command.key in {Code(x.flow, x.subject), Attempts(x.flow, x.subject)};
      } else if x.outcome == Sent && i < |x.calls| - 2 {
        assert x.calls[..|x.calls| - 2][i] == c;
        assert IsGate(c);
      } else if x.outcome != Sent {
        assert IsGate(c);
      }
    }
  }

  predicate AllProper(st: Settings, sessions: seq<Session>) {
    forall x | x in sessions :: Proper(st, x)
  }

  /** Over every run of sessions from an empty store, for every subject of either flow: each sent code is tried wrongly
      at most the maximum number of times and rightly at most once, and while it is live the stored count is exact. */
  lemma {:induction false} RunKeepsTold(st: Settings, from: Time, sessions: seq<Session>, flow: Flow, subject: string)
    requires AllProper(st, sessions) && Ran(map[], from, Calls(sessions))
    ensures Told(st, After(map[], Calls(sessions)), Last(from, Calls(sessions)), Count(sessions, flow, subject), flow, subject)
  {
    if sessions != [] {
      var init, x := sessions[..|sessions| - 1], sessions[|sessions| - 1];
      RanInTwoParts(map[], from, Calls(init), x.calls);
      RunKeepsTold(st, from, init, flow, subject);
      SessionKeepsTold(st, After(map[], Calls(init)), Last(from, Calls(init)), x, Count(init, flow, subject), flow, subject);
    }
  }

  /** At most the maximum of wrong tries of each sent code and at most one right one; a live code has not been used. */
  lemma TriesAreBounded(st: Settings, from: Time, sessions: seq<Session>, flow: Flow, subject: string)
    requires AllProper(st, sessions) && Ran(map[], from, Calls(sessions))
    ensures var t := Count(sessions, flow, subject); t.wrong <= st.maxAttempts && t.right <= 1
    ensures Live(After(map[], Calls(sessions)), Code(flow, subject), Last(from, Calls(sessions))) ==>
            Count(sessions, flow, subject).right == 0
  {
    RunKeepsTold(st, from, sessions, flow, subject);
  }

  /** Right after a request has sent a code, the code is there until its expiry has passed since it was stored, and no wrong
      try of an earlier one is left. */
  lemma SentCodeLives(st: Settings, s: Store, from: Time, x: Session, at: Time)
    requires x.Issue? && x.outcome == Sent && Issued(st, x) && Ran(s, from, x.calls)
    ensures |x.calls| >= 2 && x.calls[|x.calls| - 2].command.Put?
    ensures var stored := x.calls[|x.calls| - 2].at; var after := After(s, x.calls); var code := Code(x.flow, x.subject);
      && (Live(after, code, at) <==> at < stored + st.expiry)
      && Value(after, code, stored) == (if st.expiry > 0 then x.hash else 0)
      && Value(after, Attempts(x.flow, x.subject), at) == 0
  {
    var n := |x.calls|;
    assert x.calls[..n - 1][..n - 2] == x.calls[..n - 2];
    assert After(s, x.calls[..n - 1]) == Exec(After(s, x.calls[..n - 2]), x.calls[n - 2].command, x.calls[n - 2].at);
    assert After(s, x.calls) == Exec(After(s, x.calls[..n - 1]), x.calls[n - 1].command, x.calls[n - 1].at);
  }

  /** What a verification answers while a code is live all the way to its comparison: too many if the maximum of wrong
      tries is used up, otherwise right exactly for the latest code sent. */
  lemma LiveVerification(st: Settings, from: Time, sessions: seq<Session>, x: Session)
    requires AllProper(st, sessions) && x.Verify? && Verified(st, x)
    requires Ran(map[], from, Calls(sessions) + x.calls)
    requires |x.calls| == 1 ==> Live(After(map[], Calls(sessions)), Code(x.flow, x.subject), x.calls[0].at)
    requires |x.calls| >= 2 ==> Live(After(map[], Calls(sessions)), Code(x.flow, x.subject), x.calls[1].at)
    ensures var t := Count(sessions, x.flow, x.subject);
      x.outcome == (if t.wrong >= st.maxAttempts then TooMany else if t.sent == Some(x.hash) then Right else Wrong)
  {
    var s, now := After(map[], Calls(sessions)), Last(from, Calls(sessions));
    RanInTwoParts(map[], from, Calls(sessions), x.calls);
    RunKeepsTold(st, from, sessions, x.flow, x.subject);
    PrefixRan(s, now, x.calls, if |x.calls| == 1 then 1 else 2);
    if |x.calls| == 1 {
      OneCall(s, now, x.calls);
    } else {
      TwoCalls(s, now, x.calls[..2]);
    }
  }

  lemma {:induction false} PlaceOf(sessions: seq<Session>, i: nat, m: nat)
    requires i < |sessions| && m < |sessions[i].calls|
    ensures |Calls(sessions[..i])| + m < |Calls(sessions)|
    ensures Calls(sessions)[|Calls(sessions[..i])| + m] == sessions[i].calls[m]
  {
    var init := sessions[..|sessions| - 1];
    if i < |init| {
      assert init[..i] == sessions[..i];
      PlaceOf(init, i, m);
    }
  }

  lemma {:induction false} AllCallsDisciplined(st: Settings, sessions: seq<Session>)
    requires AllProper(st, sessions)
    ensures AllDisciplined(st, Calls(sessions))
  {
    if sessions != [] {
      AllCallsDisciplined(st, sessions[..|sessions| - 1]);
      assert Proper(st, sessions[|sessions| - 1]);
    }
  }

  lemma ClaimsOfSessions(st: Settings, from: Time, sessions: seq<Session>, i: nat, j: nat, m: nat, n: nat, k: Key)
    requires AllDisciplined(st, Calls(sessions)) && Ran(map[], from, Calls(sessions)) && k.Cooldown?
    requires i < j < |sessions| && m < |sessions[i].calls| && n < |sessions[j].calls|
    requires Claims(sessions[i].calls[m], k) && Claims(sessions[j].calls[n], k)
    ensures sessions[j].calls[n].at >= sessions[i].calls[m].at + st.cooldown
  {
    PlaceOf(sessions, i, m);
    PlaceOf(sessions, j, n);
    PlaceOf(sessions[..j], i, m);
    assert sessions[..j][..i] == sessions[..i];
    ClaimsAreApart(st, map[], from, Calls(sessions), k, |Calls(sessions[..i])| + m, |Calls(sessions[..j])| + n);
  }

  predicate ClaimsApart(x: seq<Call>, y: seq<Call>, k: Key, gap: nat) {
    exists m, n | 0 <= m < |x| && 0 <= n < |y| :: Claims(x[m], k) && Claims(y[n], k) && y[n].at >= x[m].at + gap
  }

  /** Two requests that sent a code to one subject claimed its cooldown at least the cooldown apart. */
  lemma SendsAreApart(st: Settings, from: Time, sessions: seq<Session>, i: nat, j: nat)
    requires AllProper(st, sessions) && Ran(map[], from, Calls(sessions))
    requires i < j < |sessions| && sessions[i].Issue? && sessions[j].Issue?
    requires sessions[i].outcome == Sent && sessions[j].outcome == Sent
    requires sessions[i].flow == sessions[j].flow && sessions[i].subject == sessions[j].subject
    ensures ClaimsApart(sessions[i].calls, sessions[j].calls, Cooldown(sessions[i].flow, sessions[i].subject), st.cooldown)
  {
    var m := ClaimIndex(st, sessions[i]);
    var n := ClaimIndex(st, sessions[j]);
    AllCallsDisciplined(st, sessions);
    ClaimsOfSessions(st, from, sessions, i, j, m, n, Cooldown(sessions[i].flow, sessions[i].subject));
  }

  /** As deployed: at most 5 wrong tries of a code, 30 seconds between two codes for one subject, 5 minutes for each, and at
      most 1000 requests let through per minute of the clock. */
  lemma DeployedCodes(from: Time, sessions: seq<Session>, flow: Flow, subject: string, i: nat, j: nat, w: int, at: Time)
    requires AllProper(DEPLOYED, sessions) && Ran(map[], from, Calls(sessions))
    requires i < j < |sessions| && forall x | x in {sessions[i], sessions[j]} ::
      x.Issue? && x.outcome == Sent && x.flow == flow && x.subject == subject
    ensures Count(sessions, flow, subject).wrong <= 5
    ensures ClaimsApart(sessions[i].calls, sessions[j].calls, Cooldown(flow, subject), 30)
    ensures Passes(Calls(sessions), GlobalWindow(w), DEPLOYED.globalMax) <= 1000
    ensures DEPLOYED.expiry == 300 && DEPLOYED.deviceCooldown == 10
  {
    TriesAreBounded(DEPLOYED, from, sessions, flow, subject);
    SendsAreApart(DEPLOYED, from, sessions, i, j);
    AllCallsDisciplined(DEPLOYED, sessions);
    WindowLimit(DEPLOYED, map[], from, Calls(sessions), GlobalWindow(w), DEPLOYED.globalMax);
  }

  lemma ClaimIndex(st: Settings, x: Session) returns (m: nat)
    requires x.Issue? && x.outcome == Sent && Proper(st, x)
    ensures m < |x.calls| && Claims(x.calls[m], Cooldown(x.flow, x.subject))
  {
    var gates := x.calls[..|x.calls| - 2];
    var c :| c in gates && Claims(c, Cooldown(x.flow, x.subject));
    m :| 0 <= m < |gates| && gates[m] == c;
  }

  /* ---- Overlapping verifications ---- */

  /** One code that was sent: whose it is, its hash, and when it runs out. */
  datatype Sending = Sending(flow: Flow, subject: string, hash: Hash, end: Time) {
    function Stored(): Key { Code(flow, subject) }
    function Tried(): Key { Attempts(flow, subject) }
  }

  /** Verifications of one code that run at the same time: those let in by the count, those that have then read the code
      and found their guess wrong or right; and how many wrong and right tries there were. */
  datatype Race = Race(store: Store, looked: set<nat>, wrongly: set<nat>, rightly: set<nat>, wrong: nat, right: nat, now: Time)

  /** The calls of each: read the count, read the code; then add a wrong try and renew its time to live, or use the code
      up and forget the wrong tries. */
  datatype RaceStep =
    | Look(v: nat, at: Time)
    | Fetch(v: nat, guess: Hash, at: Time)
    | Miss(v: nat, at: Time)
    | Renew(at: Time)
    | Hit(v: nat, at: Time)
    | Forget(at: Time)

  function Overlapping(r: Race): nat {
    |r.looked| + |r.wrongly| + |r.rightly|
  }

  predicate CanStep(r: Race, step: RaceStep) {
    r.now <= step.at
    && match step
       case Look(v, _) => v !in r.looked + r.wrongly + r.rightly
       case Fetch(v, _, _) => v in r.looked
       case Miss(v, _) => v in r.wrongly
       case Renew(_) => r.wrong > 0
       case Hit(v, _) => v in r.rightly
       case Forget(_) => r.right > 0
  }

  function NextRace(st: Settings, c: Sending, r: Race, step: RaceStep): Race {
    match step
    case Look(v, at) =>
      var reply := ReplyOf(r.store, Get(c.Tried()), at);
      r.(now := at, looked := if Tries(reply) >= st.maxAttempts then r.looked else r.looked + {v})
    case Fetch(v, guess, at) =>
      var found := ReplyOf(r.store, Get(c.Stored()), at).found;
      r.(now := at, looked := r.looked - {v},
         wrongly := if found.Some? && found.value != guess then r.wrongly + {v} else r.wrongly,
         rightly := if found == Some(guess) then r.rightly + {v} else r.rightly)
    case Miss(v, at) =>
      r.(now := at, store := Exec(r.store, Incr(c.Tried()), at), wrongly := r.wrongly - {v}, wrong := r.wrong + 1)
    case Renew(at) => r.(now := at, store := Exec(r.store, Expire(c.Tried(), st.expiry), at))
    case Hit(v, at) =>
      r.(now := at, store := Exec(r.store, Del(c.Stored()), at), rightly := r.rightly - {v}, right := r.right + 1)
    case Forget(at) => r.(now := at, store := Exec(r.store, Del(c.Tried()), at))
  }

  function AfterRace(st: Settings, c: Sending, r: Race, run: seq<RaceStep>): Race {
    if run == [] then r else NextRace(st, c, AfterRace(st, c, r, run[..|run| - 1]), run[|run| - 1])
  }

  /** No more than n verifications overlap at any time. */
  predicate CanRace(st: Settings, c: Sending, r: Race, run: seq<RaceStep>, n: nat) {
    if run == [] then Overlapping(r) <= n
    else
      var init, last := run[..|run| - 1], run[|run| - 1];
      && CanRace(st, c, r, init, n) && CanStep(AfterRace(st, c, r, init), last)
      && Overlapping(AfterRace(st, c, r, run)) <= n
  }

  /** Right after the code was sent. */
  predicate JustSent(st: Settings, c: Sending, r: Race) {
    && c.Stored() in r.store && r.store[c.Stored()] == Cell(c.hash, Some(c.end)) && c.Tried() !in r.store
    && r.looked == r.wrongly == r.rightly == {} && r.wrong == r.right == 0 && r.now < c.end <= r.now + st.expiry
  }

  /** The code has neither run out nor been used. */
  predicate Usable(c: Sending, r: Race) {
    r.right == 0 && r.now < c.end
  }

  /** The stored count is the number of wrong tries, in a key that will not run out before the code. */
  predicate Exact(st: Settings, c: Sending, r: Race) {
    && c.end <= r.now + st.expiry
    && if r.wrong == 0 then c.Tried() !in r.store
       else c.Tried() in r.store && r.store[c.Tried()].value == r.wrong
            && (r.store[c.Tried()].expiry.Some? ==> r.store[c.Tried()].expiry.value >= c.end)
  }

  predicate CodeKept(c: Sending, r: Race) {
    if r.right == 0 then c.Stored() in r.store && r.store[c.Stored()] == Cell(c.hash, Some(c.end)) else c.Stored() !in r.store
  }

  /** While the code is usable the count is exact and lets nobody in beyond the maximum; afterwards only those that have
      read the code can still try. */
  predicate Bounded(st: Settings, c: Sending, r: Race, n: nat) {
    && CodeKept(c, r) && (Usable(c, r) ==> Exact(st, c, r))
    && (Usable(c, r) ==> r.wrong + Overlapping(r) <= st.maxAttempts + n - 1)
    && r.wrong + r.right + |r.wrongly| + |r.rightly| <= st.maxAttempts + n - 1
    && r.right + |r.rightly| <= n
  }

  lemma Without1(s: set<nat>, v: nat)
    requires v in s
    ensures |s - {v}| == |s| - 1
  {}

  lemma LookKeepsBounded(st: Settings, c: Sending, r: Race, v: nat, at: Time, n: nat)
    requires Bounded(st, c, r, n) && CanStep(r, Look(v, at)) && Overlapping(NextRace(st, c, r, Look(v, at))) <= n
    ensures Bounded(st, c, NextRace(st, c, r, Look(v, at)), n)
    ensures Usable(c, r) && at < c.end && r.wrong < st.maxAttempts ==> v in NextRace(st, c, r, Look(v, at)).looked
  {}

  lemma FetchKeepsBounded(st: Settings, c: Sending, r: Race, v: nat, guess: Hash, at: Time, n: nat)
    requires Bounded(st, c, r, n) && CanStep(r, Fetch(v, guess, at)) && Overlapping(r) <= n
    ensures Bounded(st, c, NextRace(st, c, r, Fetch(v, guess, at)), n)
  {
    Without1(r.looked, v);
    assert |r.wrongly + {v}| <= |r.wrongly| + 1 && |r.rightly + {v}| <= |r.rightly| + 1;
  }

  lemma TryKeepsBounded(st: Settings, c: Sending, r: Race, step: RaceStep, n: nat)
    requires Bounded(st, c, r, n) && CanStep(r, step) && !step.Look? && !step.Fetch?
    ensures Bounded(st, c, NextRace(st, c, r, step), n)
  {
    if step.Miss? {
      Without1(r.wrongly, step.v);
    }
    if step.Hit? {
      Without1(r.rightly, step.v);
    }
  }

  lemma RaceStepKeepsBounded(st: Settings, c: Sending, r: Race, step: RaceStep, n: nat)
    requires Bounded(st, c, r, n) && CanStep(r, step) && Overlapping(r) <= n && Overlapping(NextRace(st, c, r, step)) <= n
    ensures Bounded(st, c, NextRace(st, c, r, step), n)
  {
    match step
    case Look(v, at) => LookKeepsBounded(st, c, r, v, at, n);
    case Fetch(v, guess, at) => FetchKeepsBounded(st, c, r, v, guess, at, n);
    case _ => TryKeepsBounded(st, c, r, step, n);
  }

  lemma {:induction false} RaceKeepsBounded(st: Settings, c: Sending, r: Race, run: seq<RaceStep>, n: nat)
    requires JustSent(st, c, r) && CanRace(st, c, r, run, n) && n >= 1
    ensures Bounded(st, c, AfterRace(st, c, r, run), n) && Overlapping(AfterRace(st, c, r, run)) <= n
  {
    if run != [] {
      var init, last := run[..|run| - 1], run[|run| - 1];
      RaceKeepsBounded(st, c, r, init, n);
      RaceStepKeepsBounded(st, c, AfterRace(st, c, r, init), last, n);
    }
  }

  /** However verifications of one code overlap, at most n at a time, at most n succeed, and right and wrong tries together
      are at most the maximum plus n less one; while the code is usable the stored count is exact. */
  lemma OverlapBound(st: Settings, c: Sending, r: Race, run: seq<RaceStep>, n: nat)
    requires JustSent(st, c, r) && CanRace(st, c, r, run, n) && n >= 1
    ensures var last := AfterRace(st, c, r, run);
      && last.right <= n && last.wrong + last.right <= st.maxAttempts + n - 1
      && (Usable(c, last) ==> Exact(st, c, last))
  {
    RaceKeepsBounded(st, c, r, run, n);
  }

  /* ---- The bound is reached ---- */

  function Span(low: nat, k: nat): (s: set<nat>)
    ensures |s| == k && forall v: nat :: v in s <==> low <= v < low + k
  {
    if k == 0 then {} else Span(low, k - 1) + {low + k - 1}
  }

  /** A race in which so many tries were made, and so many verifications have read the code and found a right or a wrong
      guess; those with wrong guesses are numbered from n on. */
  predicate Reaches(st: Settings, c: Sending, r: Race, run: seq<RaceStep>, n: nat, wrong: nat, right: nat, found: nat,
                    missed: nat) {
    && CanRace(st, c, r, run, n)
    && var last := AfterRace(st, c, r, run);
       && last.wrong == wrong && last.right == right && last.now == r.now && last.looked == {}
       && last.rightly == Span(0, found) && last.wrongly == Span(n, missed)
  }

  lemma OneRaceStepMore(st: Settings, c: Sending, r: Race, run: seq<RaceStep>, step: RaceStep, n: nat)
    requires CanRace(st, c, r, run, n) && CanStep(AfterRace(st, c, r, run), step)
    requires Overlapping(NextRace(st, c, AfterRace(st, c, r, run), step)) <= n
    ensures CanRace(st, c, r, run + [step], n)
    ensures AfterRace(st, c, r, run + [step]) == NextRace(st, c, AfterRace(st, c, r, run), step)
  {
    assert (run + [step])[..|run + [step]| - 1] == run;
  }

  lemma LooksMore(st: Settings, c: Sending, r: Race, run: seq<RaceStep>, n: nat, wrong: nat, found: nat, missed: nat, v: nat)
    requires JustSent(st, c, r) && Reaches(st, c, r, run, n, wrong, 0, found, missed)
    requires found + missed < n && wrong < st.maxAttempts
    requires v in {found, n + missed}
    ensures CanRace(st, c, r, run + [Look(v, r.now)], n)
    ensures AfterRace(st, c, r, run + [Look(v, r.now)]) == AfterRace(st, c, r, run).(looked := {v})
  {
    var now := AfterRace(st, c, r, run);
    RaceKeepsBounded(st, c, r, run, n);
    LookKeepsBounded(st, c, now, v, r.now, n);
    assert {} + {v} == {v};
    OneRaceStepMore(st, c, r, run, Look(v, r.now), n);
  }

  lemma FetchFinds(st: Settings, c: Sending, r: Race, v: nat, guess: Hash)
    requires CodeKept(c, r) && Usable(c, r)
    ensures NextRace(st, c, r, Fetch(v, guess, r.now)) ==
      if guess == c.hash then r.(looked := r.looked - {v}, rightly := r.rightly + {v})
      else r.(looked := r.looked - {v}, wrongly := r.wrongly + {v})
  {}

  /** One more verification reads the count and the code. */
  lemma ReadsMore(st: Settings, c: Sending, r: Race, run: seq<RaceStep>, n: nat, wrong: nat, found: nat, missed: nat, guess: Hash)
    returns (more: seq<RaceStep>)
    requires JustSent(st, c, r) && Reaches(st, c, r, run, n, wrong, 0, found, missed)
    requires found + missed < n && wrong < st.maxAttempts
    ensures if guess == c.hash then Reaches(st, c, r, more, n, wrong, 0, found + 1, missed)
            else Reaches(st, c, r, more, n, wrong, 0, found, missed + 1)
  {
    var v := if guess == c.hash then found else n + missed;
    LooksMore(st, c, r, run, n, wrong, found, missed, v);
    var looked := run + [Look(v, r.now)];
    RaceKeepsBounded(st, c, r, looked, n);
    FetchFinds(st, c, AfterRace(st, c, r, looked), v, guess);
    assert {v} - {v} == {};
    assert |Span(0, found + 1)| == found + 1 && |Span(n, missed + 1)| == missed + 1;
    OneRaceStepMore(st, c, r, looked, Fetch(v, guess, r.now), n);
    more := looked + [Fetch(v, guess, r.now)];
  }

  lemma MissesMore(st: Settings, c: Sending, r: Race, run: seq<RaceStep>, n: nat, wrong: nat, found: nat, missed: nat)
    returns (more: seq<RaceStep>)
    requires Reaches(st, c, r, run, n, wrong, 0, found, missed) && missed > 0
    ensures Reaches(st, c, r, more, n, wrong + 1, 0, found, missed - 1)
  {
    var v := n + missed - 1;
    assert Span(n, missed) - {v} == Span(n, missed - 1);
    OneRaceStepMore(st, c, r, run, Miss(v, r.now), n);
    more := run + [Miss(v, r.now)];
  }

  lemma HitsMore(st: Settings, c: Sending, r: Race, run: seq<RaceStep>, n: nat, wrong: nat, right: nat, found: nat)
    returns (more: seq<RaceStep>)
    requires Reaches(st, c, r, run, n, wrong, right, found, 0) && found > 0
    ensures Reaches(st, c, r, more, n, wrong, right + 1, found - 1, 0)
  {
    var v: nat := found - 1;
    assert Span(0, found) - {v} == Span(0, found - 1);
    OneRaceStepMore(st, c, r, run, Hit(v, r.now), n);
    more := run + [Hit(v, r.now)];
  }

  /** Wrong tries one after the other. */
  lemma {:induction false} InTurn(st: Settings, c: Sending, r: Race, n: nat, wrong: nat) returns (run: seq<RaceStep>)
    requires JustSent(st, c, r) && n >= 1 && wrong <= st.maxAttempts
    ensures Reaches(st, c, r, run, n, wrong, 0, 0, 0)
  {
    run := [];
    if wrong > 0 {
      run := InTurn(st, c, r, n, wrong - 1);
      run := ReadsMore(st, c, r, run, n, wrong - 1, 0, 0, c.hash + 1);
      run := MissesMore(st, c, r, run, n, wrong - 1, 0, 1);
    }
  }

  /** Then right and wrong guesses that all read the code before any of them goes on. */
  lemma {:induction false} ReadTogether(st: Settings, c: Sending, r: Race, n: nat, wrong: nat, found: nat, missed: nat)
    returns (run: seq<RaceStep>)
    requires JustSent(st, c, r) && n >= 1 && wrong < st.maxAttempts && found + missed <= n
    ensures Reaches(st, c, r, run, n, wrong, 0, found, missed)
  {
    if found == 0 && missed == 0 {
      run := InTurn(st, c, r, n, wrong);
    } else if found > 0 {
      run := ReadTogether(st, c, r, n, wrong, found - 1, missed);
      run := ReadsMore(st, c, r, run, n, wrong, found - 1, missed, c.hash);
    } else {
      run := ReadTogether(st, c, r, n, wrong, found, missed - 1);
      run := ReadsMore(st, c, r, run, n, wrong, found, missed - 1, c.hash + 1);
    }
  }

  lemma {:induction false} MissTogether(st: Settings, c: Sending, r: Race, run0: seq<RaceStep>, n: nat, wrong: nat,
                                        found: nat, missed: nat)
    returns (run: seq<RaceStep>)
    requires Reaches(st, c, r, run0, n, wrong, 0, found, missed)
    ensures Reaches(st, c, r, run, n, wrong + missed, 0, found, 0)
    decreases missed
  {
    run := run0;
    if missed > 0 {
      run := MissesMore(st, c, r, run0, n, wrong, found, missed);
      run := MissTogether(st, c, r, run, n, wrong + 1, found, missed - 1);
    }
  }

  lemma {:induction false} HitTogether(st: Settings, c: Sending, r: Race, run0: seq<RaceStep>, n: nat, wrong: nat,
                                       right: nat, found: nat)
    returns (run: seq<RaceStep>)
    requires Reaches(st, c, r, run0, n, wrong, right, found, 0)
    ensures Reaches(st, c, r, run, n, wrong, right + found, 0, 0)
    decreases found
  {
    run := run0;
    if found > 0 {
      run := HitsMore(st, c, r, run0, n, wrong, right, found);
      run := HitTogether(st, c, r, run, n, wrong, right + 1, found - 1);
    }
  }

  /** So many wrong and right tries were made of the code. */
  predicate EndsWith(st: Settings, c: Sending, r: Race, run: seq<RaceStep>, n: nat, wrong: nat, right: nat) {
    CanRace(st, c, r, run, n) && AfterRace(st, c, r, run).wrong == wrong && AfterRace(st, c, r, run).right == right
  }

  lemma EndHappens(st: Settings, c: Sending, r: Race, n: nat, wrong: nat, right: nat) returns (run: seq<RaceStep>)
    requires JustSent(st, c, r) && n >= 1 && st.maxAttempts >= 1
    requires right <= n && wrong + right <= st.maxAttempts + n - 1
    ensures EndsWith(st, c, r, run, n, wrong, right)
  {
    var before := Min(wrong, st.maxAttempts - 1);
    run := ReadTogether(st, c, r, n, before, right, wrong - before);
    run := MissTogether(st, c, r, run, n, before, right, wrong - before);
    run := HitTogether(st, c, r, run, n, wrong, 0, right);
  }

  /** Exactly these numbers of wrong and right tries are possible when at most n verifications of a code overlap: at most n
      right ones, and at most the maximum plus n less one altogether. */
  lemma OverlapTallies(st: Settings, c: Sending, r: Race, n: nat, wrong: nat, right: nat)
    requires JustSent(st, c, r) && n >= 1 && st.maxAttempts >= 1
    ensures (exists run :: EndsWith(st, c, r, run, n, wrong, right)) <==> right <= n && wrong + right <= st.maxAttempts + n - 1
  {
    if run :| EndsWith(st, c, r, run, n, wrong, right) {
      OverlapBound(st, c, r, run, n);
    }
    if right <= n && wrong + right <= st.maxAttempts + n - 1 {
      var run := EndHappens(st, c, r, n, wrong, right);
    }
  }

  /* ---- The service ---- */

  class CodeService {
    const st: Settings
    var store: Store
    var clock: Time

    constructor (st: Settings, now: Time)
      ensures this.st == st && store == map[] && clock == now
    {
      this.st := st;
      store := map[];
      clock := now;
    }

    /** The calls made since store `s` and time `from` lead to the present store. */
    ghost predicate Traced(s: Store, from: Time, calls: seq<Call>)
      reads this
    {
      Ran(s, from, calls) && store == After(s, calls) && Last(from, calls) <= clock
    }

    /** Time passes before every call. */
    method Wait()
      modifies this`clock
      ensures clock >= old(clock)
    {
      var later :| later >= clock;
      clock := later;
    }

    method Do(ghost s: Store, ghost from: Time, calls: seq<Call>, command: Command) returns (call: Call)
      requires Traced(s, from, calls)
      modifies this
      ensures Traced(s, from, calls + [call]) && clock == call.at
      ensures call == Call(command, old(clock), ReplyOf(old(store), command, old(clock)))
    {
      call := Call(command, clock, ReplyOf(store, command, clock));
      store := Exec(store, command, clock);
      assert (calls + [call])[..|calls|] == calls;
    }

    /** The cooldown of a subject: a look first, then an atomic claim. */
    method ClaimCooldown(flow: Flow, subject: string) returns (calls: seq<Call>, ok: bool)
      modifies this
      ensures Traced(old(store), old(clock), calls) && Gated(st, calls, ok)
      ensures if ok then ClaimedIn(calls, Cooldown(flow, subject)) else RefusedAtEnd(st, calls, true)
    {
      var k := Cooldown(flow, subject);
      Wait();
      calls := [];
      var c := Do(old(store), old(clock), calls, Get(k));
      GatedMore(st, calls, true, c);
      calls := calls + [c];
      if c.reply != Got(None) {
        assert calls[0] == c && AllLet(st, calls[..0]);
        return calls, false;
      }
      Wait();
      var d := Do(old(store), old(clock), calls, Claim(k, st.cooldown));
      GatedMore(st, calls, Lets(st, c), d);
      calls := calls + [d];
      assert calls == [c, d] && d in calls && calls[..1] == [c];
      ok := d.reply.ok;
    }

    method CurrentWindow() returns (w: int)
      requires Positive(st)
      ensures w * st.window <= clock < (w + 1) * st.window
    {
      w := clock / st.window;
      InWindow(clock, st.window);
    }

    /** One increment of a window counter; the window is that of the moment of the increment. */
    method CountWindow(ghost s: Store, ghost from: Time, calls0: seq<Call>, ip: Option<string>) returns (calls: seq<Call>, ok: bool)
      requires Positive(st) && Traced(s, from, calls0) && Gated(st, calls0, true)
      modifies this
      ensures Traced(s, from, calls) && Gated(st, calls, ok) && calls0 <= calls
      ensures |calls0| < |calls| && calls[|calls0|].command.Incr? && calls[|calls0|].reply.Counted?
      ensures ok <==> calls[|calls0|].reply.count <= if ip.Some? then st.ipMax else st.globalMax
      ensures ok && ip.Some? ==> IpPassedIn(st, calls, ip.value)
      ensures ok && ip.None? ==> GlobalPassedIn(st, calls)
      ensures !ok ==> RefusedAtEnd(st, calls, false)
    {
      Wait();
      var w := CurrentWindow();
      var k := if ip.Some? then IpWindow(ip.value, w) else GlobalWindow(w);
      var c := Do(s, from, calls0, Incr(k));
      WindowCall(st, c, w);
      GatedMore(st, calls0, true, c);
      calls := calls0 + [c];
      assert c in calls;
      Wait();
      var d := Do(s, from, calls, Expire(k, st.window));
      GatedMore(st, calls, Lets(st, c), d);
      KeptPasses(st, calls, calls + [d], Cooldown(Mobile, ""), if ip.Some? then ip.value else "");
      calls := calls + [d];
      ok := c.reply.count <= (if ip.Some? then st.ipMax else st.globalMax);
      assert calls[|calls0|] == c && calls[..|calls0|] == calls0;
    }

    method ClaimDevice(ghost s: Store, ghost from: Time, calls0: seq<Call>, device: string) returns (calls: seq<Call>, ok: bool)
      requires Traced(s, from, calls0) && Gated(st, calls0, true)
      modifies this
      ensures Traced(s, from, calls) && Gated(st, calls, ok) && calls0 <= calls
      ensures if ok then ClaimedIn(calls, Device(device)) else RefusedAtEnd(st, calls, false)
    {
      Wait();
      var c := Do(s, from, calls0, Claim(Device(device), st.deviceCooldown));
      GatedMore(st, calls0, true, c);
      calls := calls0 + [c];
      if !c.reply.ok {
        assert calls[|calls0|] == c && calls[..|calls0|] == calls0;
        return calls, false;
      }
      Wait();
      var d := Do(s, from, calls, Put(Device(device), 1, st.deviceCooldown));
      GatedMore(st, calls, Lets(st, c), d);
      assert c in calls;
      KeptPasses(st, calls, calls + [d], Device(device), "");
      calls := calls + [d];
      ok := true;
    }

    /** Replaces the code and forgets the wrong tries. */
    method StoreCode(ghost s: Store, ghost from: Time, gates: seq<Call>, flow: Flow, subject: string, hash: Hash) returns (calls: seq<Call>)
      requires Traced(s, from, gates)
      modifies this
      ensures Traced(s, from, calls) && Stores(st, gates, calls, flow, subject, hash)
    {
      Wait();
      var c := Do(s, from, gates, Put(Code(flow, subject), hash, st.expiry));
      calls := gates + [c];
      Wait();
      var d := Do(s, from, calls, Del(Attempts(flow, subject)));
      calls := calls + [d];
    }

    method RequestOtp(subject: string, ip: string, device: string, hash: Hash) returns (calls: seq<Call>, outcome: Outcome)
      requires Positive(st)
      modifies this
      ensures Traced(old(store), old(clock), calls)
      ensures Issued(st, Issue(Mobile, subject, ip, device, hash, calls, outcome))
    {
      ghost var s, from := store, clock;
      var ok: bool;
      calls, ok := ClaimCooldown(Mobile, subject);
      if !ok {
        return calls, TooSoon;
      }
      ghost var first := calls;
      if ip != "" {
        calls, ok := CountWindow(s, from, calls, Some(ip));
        if !ok {
          return calls, Limited;
        }
      }
      ghost var second := calls;
      if device != "" {
        calls, ok := ClaimDevice(s, from, calls, device);
        if !ok {
          return calls, Limited;
        }
      }
      ghost var third := calls;
      calls, ok := CountWindow(s, from, calls, None);
      if !ok {
        return calls, Limited;
      }
      KeptPasses(st, first, calls, Cooldown(Mobile, subject), "");
      KeptPasses(st, second, calls, Cooldown(Mobile, subject), ip);
      KeptPasses(st, third, calls, Device(device), "");
      ghost var gates := calls;
      calls := StoreCode(s, from, calls, Mobile, subject, hash);
      Stored(st, gates, calls, Mobile, subject, ip, device, hash);
      outcome := Sent;
    }

    method SendEmailCode(subject: string, purpose: Purpose, hash: Hash) returns (calls: seq<Call>, outcome: Outcome)
      modifies this
      ensures Traced(old(store), old(clock), calls)
      ensures Issued(st, Issue(Email(purpose), subject, "", "", hash, calls, outcome))
    {
      ghost var s, from := store, clock;
      var ok: bool;
      calls, ok := ClaimCooldown(Email(purpose), subject);
      if !ok {
        return calls, TooSoon;
      }
      ghost var gates := calls;
      calls := StoreCode(s, from, calls, Email(purpose), subject, hash);
      Stored(st, gates, calls, Email(purpose), subject, "", "", hash);
      outcome := Sent;
    }

    /** Both flows verify alike. */
    method VerifyCode(flow: Flow, subject: string, hash: Hash) returns (calls: seq<Call>, outcome: Outcome)
      modifies this
      ensures Traced(old(store), old(clock), calls)
      ensures Verified(st, Verify(flow, subject, hash, calls, outcome))
    {
      ghost var s, from := store, clock;
      var code, attempts := Code(flow, subject), Attempts(flow, subject);
      Wait();
      var c := Do(s, from, [], Get(attempts));
      calls := [c];
      assert [] + [c] == calls;
      if Tries(c.reply) >= st.maxAttempts {
        return calls, TooMany;
      }
      Wait();
      var d := Do(s, from, calls, Get(code));
      assert calls + [d] == [c, d];
      calls := [c, d];
      if d.reply.found.None? {
        return calls, Expired;
      }
      calls, outcome := Compare(s, from, c, d, flow, subject, hash);
    }

    /** The guess is compared with the code read: a wrong one is counted, a right one uses the code up. */
    method Compare(ghost s: Store, ghost from: Time, c: Call, d: Call, flow: Flow, subject: string, hash: Hash)
        returns (calls: seq<Call>, outcome: Outcome)
      requires Traced(s, from, [c, d])
      requires c.command == Get(Attempts(flow, subject)) && c.reply.Got? && Tries(c.reply) < st.maxAttempts
      requires d.command == Get(Code(flow, subject)) && d.reply.Got? && d.reply.found.Some?
      modifies this
      ensures Traced(s, from, calls) && Verified(st, Verify(flow, subject, hash, calls, outcome))
    {
      outcome := if d.reply.found.value == hash then Right else Wrong;
      Wait();
      var e := Do(s, from, [c, d], if outcome == Right then Del(d.command.key) else Incr(c.command.key));
      Wait();
      var f := Do(s, from, [c, d] + [e], if outcome == Right then Del(c.command.key) else Expire(c.command.key, st.expiry));
      assert [c, d] + [e] + [f] == [c, d, e, f];
      calls := [c, d, e, f];
      Compared(st, Verify(flow, subject, hash, calls, outcome), c, d, e, f);
    }
  }

  lemma Compared(st: Settings, v: Session, c: Call, d: Call, e: Call, f: Call)
    requires v.Verify? && v.calls == [c, d, e, f]
    requires c.command == Get(Attempts(v.flow, v.subject)) && c.reply.Got? && Tries(c.reply) < st.maxAttempts
    requires d.command == Get(Code(v.flow, v.subject)) && d.reply.Got? && d.reply.found.Some?
    requires if d.reply.found.value == v.hash then
      e.command == Del(d.command.key) && f.command == Del(c.command.key) && v.outcome == Right
      else e.command == Incr(c.command.key) && f.command == Expire(c.command.key, st.expiry) && v.outcome == Wrong
    ensures Verified(st, v)
  {}

  lemma WindowCall(st: Settings, c: Call, w: int)
    requires c.command.Incr? && WindowKey(c.command.key) && c.command.key.window == w
    requires w * st.window <= c.at < (w + 1) * st.window
    ensures Disciplined(st, c)
  {}

  lemma InWindow(t: Time, window: nat)
    requires window > 0
    ensures (t / window) * window <= t < (t / window + 1) * window
  {}

  /** Only calls of gates, all as they should be; `ok` if each of them let the request through. */
  predicate Gated(st: Settings, calls: seq<Call>, ok: bool) {
    AllDisciplined(st, calls) && GatesOnly(calls) && (ok <==> AllLet(st, calls))
  }

  lemma GatedMore(st: Settings, calls: seq<Call>, ok: bool, c: Call)
    requires Gated(st, calls, ok) && Disciplined(st, c) && IsGate(c)
    ensures Gated(st, calls + [c], ok && Lets(st, c))
  {}

  lemma KeptPasses(st: Settings, before: seq<Call>, calls: seq<Call>, k: Key, ip: string)
    requires before <= calls
    ensures ClaimedIn(before, k) ==> ClaimedIn(calls, k)
    ensures IpPassedIn(st, before, ip) ==> IpPassedIn(st, calls, ip)
    ensures GlobalPassedIn(st, before) ==> GlobalPassedIn(st, calls)
  {}

  predicate Stores(st: Settings, gates: seq<Call>, calls: seq<Call>, flow: Flow, subject: string, hash: Hash) {
    && gates <= calls && |calls| == |gates| + 2
    && calls[|gates|].command == Put(Code(flow, subject), hash, st.expiry)
    && calls[|gates| + 1].command == Del(Attempts(flow, subject))
  }

  lemma Stored(st: Settings, gates: seq<Call>, calls: seq<Call>, flow: Flow, subject: string, ip: string, device: string, hash: Hash)
    requires Stores(st, gates, calls, flow, subject, hash) && Gated(st, gates, true)
    requires PassedAllGates(st, gates, flow, subject, ip, device)
    ensures Issued(st, Issue(flow, subject, ip, device, hash, calls, Sent))
  {}
}
