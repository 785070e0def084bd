/**
The server of AttestorTLS statements: a cached signed statement, at most one refresh at
a time that every caller shares, and a clock. Each section under the mutex, each
reading of the clock and each channel operation is one step, so callers, the refresh
and time interleave freely. Times are in nanoseconds, but for the statement's own
`issuedAt` and `expiresAt`, which are whole seconds.
*/
module AttestorTls {
  import opened Sequences
  import opened Wrappers

  const SECOND := 1_000_000_000
  const MAX_LEASE := 300
  const REFRESH_AHEAD := 60 * SECOND
  const SERVE_MARGIN := 30 * SECOND
  const FAIL_MARGIN := 5 * SECOND
  const RETRY_INTERVAL := 5 * SECOND

  /** A signed statement, with the end of the identity lease it was issued under. */
  datatype Statement = Statement(issuedAt: int, expiresAt: int, lease: int)

  type Channel = nat

  /** The fields behind the mutex. Channels are numbered in the order they are made. */
  datatype Shared = Shared(statement: Option<Statement>, lastTry: Option<int>, refreshing: Option<Channel>, made: nat)

  /** startRefresh: the channel of the running refresh, `None` for the one that is closed from the start. */
  function StartRefresh(s: Shared, now: int): (Shared, Option<Channel>) {
    if s.refreshing.Some? then (s, s.refreshing)
    else if s.lastTry.Some? && now - s.lastTry.value < RETRY_INTERVAL then (s, None)
    else (s.(lastTry := Some(now), refreshing := Some(s.made), made := s.made + 1), Some(s.made))
  }

  /** issue, once the pins and the end of their lease are known: `None` is an error. */
  function Issue(now: int, lease: int, signed: bool): Option<Statement> {
    var issuedAt := now / SECOND;
    var expiresAt := if lease / SECOND > issuedAt + MAX_LEASE then issuedAt + MAX_LEASE else lease / SECOND;
    if issuedAt <= 0 || expiresAt <= issuedAt || !signed then None else Some(Statement(issuedAt, expiresAt, lease))
  }

  /** The end of refresh: a new statement replaces the old one, a failure leaves it. */
  function EndRefresh(s: Shared, issued: Option<Statement>): Shared {
    s.(statement := if issued.Some? then issued else s.statement, refreshing := None)
  }

  predicate LeavesMoreThan(margin: int, s: Option<Statement>, now: int) {
    s.Some? && now < s.value.expiresAt * SECOND - margin
  }

  /** Where a request is. */
  datatype Pc =
    | Idle
    | Peeked(copy: Option<Statement>)
    | Warming
    | Starting
    | Started(done: Option<Channel>)
    | Blocked(channel: Channel)
    | Resumed(limited: bool)
    | Peeked2(copy: Option<Statement>, limited: bool)

  /** Where a refresh is. */
  datatype Phase = Fetching | Signing(lease: int) | Finishing(issued: Option<Statement>)

  /** `at` is when the statement was found to be good enough. */
  datatype Response = Served(statement: Statement, at: int) | TooManyRequests | Unavailable

  type Caller = nat

  /** `starts` and `closed` record when refreshes began and which channels were closed, in order. */
  datatype World = World(now: int, shared: Shared, callers: map<Caller, Pc>, running: map<Channel, Phase>,
                         starts: seq<int>, closed: seq<Channel>, responses: seq<Response>)

  datatype Event =
    | Advance(elapsed: nat)
    | Peek(c: Caller)
    | Decide(c: Caller)
    | Start(c: Caller)
    | Wait(c: Caller, allowed: bool)
    | Resume(c: Caller, cancelled: bool)
    | PeekAgain(c: Caller)
    | Answer(c: Caller)
    | Pins(r: Channel, lease: Option<int>)
    | Sign(r: Channel, ok: bool)
    | Finish(r: Channel)

  function PcOf(w: World, c: Caller): Pc {
    if c in w.callers then w.callers[c] else Idle
  }

  function At(w: World, c: Caller, pc: Pc): World {
    w.(callers := w.callers[c := pc])
  }

  function Respond(w: World, c: Caller, pc: Pc, r: Response): World {
    w.(callers := w.callers[c := pc], responses := w.responses + [r])
  }

  predicate IsClosed(w: World, done: Option<Channel>) {
    done.None? || done.value in w.closed
  }

  /** startRefresh for a caller that goes on to `next`, with the refresh it may set off. */
  function Starts(w: World, c: Caller): World {
    var (s, done) := StartRefresh(w.shared, w.now);
    var pc := if PcOf(w, c) == Warming then Idle else Started(done);
    var w' := At(w, c, pc).(shared := s);
    if s.made == w.shared.made then w'
    else w'.(running := w.running[w.shared.made := Fetching], starts := w.starts + [w.now])
  }

  function Step(w: World, e: Event): World {
    match e
    case Advance(elapsed) => w.(now := w.now + elapsed)
    case Peek(c) => if PcOf(w, c) == Idle then At(w, c, Peeked(w.shared.statement)) else w
    case Decide(c) =>
      (match PcOf(w, c)
       case Peeked(copy) =>
         if !LeavesMoreThan(SERVE_MARGIN, copy, w.now) then At(w, c, Starting)
         else
           var pc := if LeavesMoreThan(REFRESH_AHEAD, copy, w.now) then Idle else Warming;
           Respond(w, c, pc, Served(copy.value, w.now))
       case _ => w)
    case Start(c) => if PcOf(w, c) == Warming || PcOf(w, c) == Starting then Starts(w, c) else w
    case Wait(c, allowed) =>
      (match PcOf(w, c)
       case Started(done) =>
         At(w, c, if IsClosed(w, done) then Resumed(false) else if allowed then Blocked(done.value) else Resumed(true))
       case _ => w)
    case Resume(c, cancelled) =>
      (match PcOf(w, c)
       case Blocked(ch) => if ch in w.closed || cancelled then At(w, c, Resumed(false)) else w
       case _ => w)
    case PeekAgain(c) =>
      (match PcOf(w, c)
       case Resumed(limited) => At(w, c, Peeked2(w.shared.statement, limited))
       case _ => w)
    case Answer(c) =>
      (match PcOf(w, c)
       case Peeked2(copy, limited) =>
         Respond(w, c, Idle, if LeavesMoreThan(FAIL_MARGIN, copy, w.now) then Served(copy.value, w.now)
                             else if limited then TooManyRequests else Unavailable)
       case _ => w)
    case Pins(r, lease) =>
      if r !in w.running || !w.running[r].Fetching? then w
      else w.(running := w.running[r := if lease.Some? then Signing(lease.value) else Finishing(None)])
    case Sign(r, ok) =>
      if r !in w.running || !w.running[r].Signing? then w
      else w.(running := w.running[r := Finishing(Issue(w.now, w.running[r].lease, ok))])
    case Finish(r) =>
      if r !in w.running || !w.running[r].Finishing? then w
      else w.(shared := EndRefresh(w.shared, w.running[r].issued), running := w.running - {r}, closed := w.closed + [r])
  }

  function Run(w: World, events: seq<Event>): World
    decreases events
  {
    if events == [] then w else Run(Step(w, events[0]), events[1..])
  }

  function Boot(now: int): World {
    World(now, Shared(None, None, None, 0), map[], map[], [], [], [])
  }

  // ---------------------------------------------------------------------------
  // The invariant
  // ---------------------------------------------------------------------------

  /** A lease of at most five minutes that began by now and that the identity's own outlives. */
  predicate Sound(s: Option<Statement>, now: int) {
    s.Some? ==> s.value.issuedAt < s.value.expiresAt <= s.value.issuedAt + MAX_LEASE
                && s.value.expiresAt * SECOND <= s.value.lease && s.value.issuedAt * SECOND <= now
  }

  predicate PcSound(w: World, pc: Pc) {
    match pc
    case Peeked(copy) => Sound(copy, w.now)
    case Peeked2(copy, _) => Sound(copy, w.now)
    case Started(done) => done.Some? ==> done.value < w.shared.made
    case Blocked(ch) => ch < w.shared.made
    case _ => true
  }

  predicate PhaseSound(w: World, p: Phase) {
    p.Finishing? ==> Sound(p.issued, w.now)
  }

  /** What a response with status 200 promises. */
  predicate ResponseSound(w: World, r: Response) {
    var s := if r.Served? then Some(r.statement) else None;
    r.Served? ==> Sound(s, r.at) && r.at <= w.now && LeavesMoreThan(FAIL_MARGIN, s, r.at)
  }

  predicate StatementsSound(w: World) {
    && Sound(w.shared.statement, w.now)
    && (forall c | c in w.callers :: PcSound(w, w.callers[c]))
    && (forall r | r in w.running :: PhaseSound(w, w.running[r]))
    && forall r | r in w.responses :: ResponseSound(w, r)
  }

  /** At most one refresh runs, and each channel ever made is either its channel or closed, once. */
  ghost predicate OneRefresh(w: World) {
    && w.running.Keys == (if w.shared.refreshing.Some? then {w.shared.refreshing.value} else {})
    && NoRepeats(w.closed)
    && (forall ch: nat :: ch < w.shared.made <==> ch in w.running || ch in w.closed)
    && (forall ch | ch in w.running :: ch !in w.closed)
  }

  predicate Spaced(s: seq<int>, gap: int) {
    forall i | 0 <= i < |s| - 1 :: s[i] + gap <= s[i + 1]
  }

  predicate StartsSpaced(w: World) {
    && Spaced(w.starts, RETRY_INTERVAL)
    && (w.shared.lastTry.None? <==> w.starts == [])
    && (w.starts != [] ==> w.shared.lastTry == Some(w.starts[|w.starts| - 1]) && w.starts[|w.starts| - 1] <= w.now)
  }

  ghost predicate Inv(w: World) {
    StatementsSound(w) && OneRefresh(w) && StartsSpaced(w)
  }

  lemma IssueIsSound(now: int, lease: int, signed: bool)
    ensures Sound(Issue(now, lease, signed), now)
  {
  }

  lemma SoundLater(s: Option<Statement>, now: int, later: int)
    requires Sound(s, now) && now <= later
    ensures Sound(s, later)
  {
  }

  lemma StartRefreshGivesAChannel(s: Shared, now: int)
    requires s.refreshing.Some? ==> s.refreshing.value < s.made
    ensures var (s', done) := StartRefresh(s, now);
      s'.made >= s.made && s'.statement == s.statement && (done.Some? ==> done.value < s'.made)
  {
  }

  lemma CallersStaySound(w: World, e: Event)
    requires Sound(w.shared.statement, w.now) && forall c | c in w.callers :: PcSound(w, w.callers[c])
    requires w.shared.refreshing.Some? ==> w.shared.refreshing.value < w.shared.made
    ensures var w' := Step(w, e); forall c | c in w'.callers :: PcSound(w', w'.callers[c])
  {
    hide StartRefresh, LeavesMoreThan, Sound, Issue;
    StartRefreshGivesAChannel(w.shared, w.now);
    var w' := Step(w, e);
    forall c | c in w'.callers ensures PcSound(w', w'.callers[c]) {
      if c in w.callers {
        assert PcSound(w, w.callers[c]);
        if e.Advance? {
          match w.callers[c] {
            case Peeked(copy) => SoundLater(copy, w.now, w'.now);
            case Peeked2(copy, _) => SoundLater(copy, w.now, w'.now);
            case _ =>
          }
        }
      }
    }
  }

  lemma RefreshStaysSound(w: World, e: Event)
    requires StatementsSound(w)
    ensures var w' := Step(w, e);
      Sound(w'.shared.statement, w'.now) && forall r | r in w'.running :: PhaseSound(w', w'.running[r])
  {
    hide PcSound;
    if e.Sign? && e.r in w.running && w.running[e.r].Signing? {
      IssueIsSound(w.now, w.running[e.r].lease, e.ok);
    }
    hide Issue;
  }

  lemma ResponsesStaySound(w: World, e: Event)
    requires StatementsSound(w)
    ensures var w' := Step(w, e); forall r | r in w'.responses :: ResponseSound(w', r)
  {
    var w' := Step(w, e);
    if e.Decide? || e.Answer? {
      assert e.c in w.callers ==> PcSound(w, w.callers[e.c]);
    }
    forall r | r in w'.responses ensures ResponseSound(w', r) {
      assert r in w.responses || r == w'.responses[|w.responses|];
    }
  }

  lemma StatementsStaySound(w: World, e: Event)
    requires StatementsSound(w) && OneRefresh(w)
    ensures StatementsSound(Step(w, e))
  {
    CallersStaySound(w, e);
    RefreshStaysSound(w, e);
    ResponsesStaySound(w, e);
    hide Step, PcSound, PhaseSound, ResponseSound, Sound;
  }

  lemma OneRefreshStays(w: World, e: Event)
    requires OneRefresh(w)
    ensures OneRefresh(Step(w, e))
  {
  }

  lemma StartsStaySpaced(w: World, e: Event)
    requires StartsSpaced(w)
    ensures StartsSpaced(Step(w, e))
  {
  }

  lemma StepKeeps(w: World, e: Event)
    requires Inv(w)
    ensures Inv(Step(w, e))
  {
    StatementsStaySound(w, e);
    OneRefreshStays(w, e);
    StartsStaySpaced(w, e);
  }

  lemma {:induction false} RunKeeps(w: World, events: seq<Event>)
    requires Inv(w)
    ensures Inv(Run(w, events))
    decreases events
  {
    if events != [] {
      StepKeeps(w, events[0]);
      RunKeeps(Step(w, events[0]), events[1..]);
    }
  }

  // ---------------------------------------------------------------------------
  // What every run guarantees
  // ---------------------------------------------------------------------------

  /**
   * Every 200 response, in every interleaving: the statement had more than five seconds left, its lease is at
   * most 300 s, had begun, and does not outlive the identity's lease.
   */
  lemma EveryServedStatementIsValid(now: int, events: seq<Event>, r: Response)
    requires r in Run(Boot(now), events).responses && r.Served?
    ensures r.at < r.statement.expiresAt * SECOND - 5 * SECOND
    ensures r.statement.issuedAt < r.statement.expiresAt <= r.statement.issuedAt + 300
    ensures r.statement.issuedAt * SECOND <= r.at
    ensures r.statement.expiresAt * SECOND <= r.statement.lease
  {
    RunKeeps(Boot(now), events);
  }

  /**
   * At most one refresh runs, it is the one whose channel callers are given, and every channel that was ever
   * made has either been closed exactly once or belongs to it.
   */
  lemma OneRefreshAtATime(now: int, events: seq<Event>)
    ensures var w := Run(Boot(now), events);
      && |w.running| <= 1
      && (forall r | r in w.running :: w.shared.refreshing == Some(r))
      && NoRepeats(w.closed)
      && forall ch: nat | ch < w.shared.made :: ch in w.closed <==> w.shared.refreshing != Some(ch)
  {
    RunKeeps(Boot(now), events);
    var w := Run(Boot(now), events);
    assert |w.running| == |w.running.Keys|;
  }

  /** The running refresh, taken to its end. */
  function AfterRefresh(w: World, ch: Channel, lease: Option<int>, ok: bool): World {
    Step(Step(Step(w, Pins(ch, lease)), Sign(ch, ok)), Finish(ch))
  }

  /**
   * A blocked caller waits for a channel that is closed or that the running refresh closes when it ends, or until its
   * own request is cancelled.
   */
  lemma WaitersAreReleased(now: int, events: seq<Event>, c: Caller)
    requires PcOf(Run(Boot(now), events), c).Blocked?
    ensures var w := Run(Boot(now), events);
      var ch := PcOf(w, c).channel;
      && Step(w, Resume(c, true)) == At(w, c, Resumed(false))
      && (Step(w, Resume(c, false)) == At(w, c, Resumed(false)) ||
          (ch in w.running && forall lease, ok ::
            PcOf(Step(AfterRefresh(w, ch, lease, ok), Resume(c, false)), c) == Resumed(false)))
  {
    RunKeeps(Boot(now), events);
    var w := Run(Boot(now), events);
    var ch := PcOf(w, c).channel;
    if ch !in w.closed {
      forall lease, ok ensures
          PcOf(Step(AfterRefresh(w, ch, lease, ok), Resume(c, false)), c) == Resumed(false)
      {
        RefreshReleases(w, c, ch, lease, ok);
      }
    }
  }

  lemma RefreshReleases(w: World, c: Caller, ch: Channel, lease: Option<int>, ok: bool)
    requires PcOf(w, c) == Blocked(ch) && ch in w.running
    ensures PcOf(Step(AfterRefresh(w, ch, lease, ok), Resume(c, false)), c) == Resumed(false)
  {
    var w2 := Step(Step(w, Pins(ch, lease)), Sign(ch, ok));
    assert ch in w2.running && w2.running[ch].Finishing? && PcOf(w2, c) == Blocked(ch);
    assert ch in Step(w2, Finish(ch)).closed;
  }

  /** How many of the starts fall into the window from `lo` to `hi`. */
  function CountIn(s: seq<int>, lo: int, hi: int): nat {
    if s == [] then 0 else CountIn(s[..|s| - 1], lo, hi) + if lo <= s[|s| - 1] <= hi then 1 else 0
  }

  lemma {:induction false} SpacedBelow(s: seq<int>, gap: nat, k: nat)
    requires Spaced(s, gap) && k < |s|
    ensures s[k] <= s[|s| - 1] && (k < |s| - 1 ==> s[k] <= s[|s| - 1] - gap)
    decreases |s| - k
  {
    if k < |s| - 1 {
      SpacedBelow(s, gap, k + 1);
    }
  }

  lemma {:induction false} CountBelow(s: seq<int>, lo: int, hi: int, top: int)
    requires top <= hi && forall k | 0 <= k < |s| :: s[k] <= top
    ensures CountIn(s, lo, hi) == CountIn(s, lo, top)
  {
    if s != [] {
      CountBelow(s[..|s| - 1], lo, hi, top);
    }
  }

  lemma {:induction false} SpacedCount(s: seq<int>, lo: int, hi: int)
    requires Spaced(s, RETRY_INTERVAL) && lo <= hi + RETRY_INTERVAL
    ensures CountIn(s, lo, hi) <= (hi - lo) / RETRY_INTERVAL + 1
  {
    if s != [] {
      var last := s[|s| - 1];
      var front := s[..|s| - 1];
      forall k | 0 <= k < |front| ensures front[k] <= last - RETRY_INTERVAL {
        SpacedBelow(s, RETRY_INTERVAL, k);
      }
      if lo <= last <= hi {
        CountBelow(front, lo, hi, last - RETRY_INTERVAL);
        SpacedCount(front, lo, last - RETRY_INTERVAL);
      } else {
        SpacedCount(front, lo, hi);
      }
    }
  }

  /** In any window of `window` seconds at most window / 5 + 1 refreshes begin, however many requests ask for one. */
  lemma RefreshesAreRationed(now: int, events: seq<Event>, lo: int, window: nat)
    ensures CountIn(Run(Boot(now), events).starts, lo, lo + window * SECOND) <= window / 5 + 1
  {
    RunKeeps(Boot(now), events);
    SpacedCount(Run(Boot(now), events).starts, lo, lo + window * SECOND);
  }

  // ---------------------------------------------------------------------------
  // What becomes of the cached statement
  // ---------------------------------------------------------------------------

  /** A refresh that is about to end has a statement no older than the cached one. */
  ghost predicate Newer(w: World) {
    forall r | r in w.running && w.running[r].Finishing? :: NotOlder(w.shared.statement, w.running[r].issued)
  }

  predicate NotOlder(was: Option<Statement>, next: Option<Statement>) {
    was.Some? && next.Some? ==> was.value.issuedAt <= next.value.issuedAt
  }

  lemma {:induction false} OnlyNewer(w: World, events: seq<Event>)
    requires Inv(w) && Newer(w)
    ensures var w' := Run(w, events);
      && (w.shared.statement.Some? ==> w'.shared.statement.Some?) && NotOlder(w.shared.statement, w'.shared.statement)
      && Newer(w')
    decreases events
  {
    if events != [] {
      hide Step, Newer, Inv;
      StepKeeps(w, events[0]);
      StepOnlyNewer(w, events[0]);
      OnlyNewer(Step(w, events[0]), events[1..]);
    }
  }

  lemma StepOnlyNewer(w: World, e: Event)
    requires Inv(w) && Newer(w)
    ensures var w' := Step(w, e);
      && (w.shared.statement.Some? ==> w'.shared.statement.Some?) && NotOlder(w.shared.statement, w'.shared.statement)
      && Newer(w')
  {
    hide StartsSpaced;
  }

  /**
   * Once a statement is cached there is one for ever after, and none replaces one issued later: no failing refresh,
   * no caller and no passing of time takes it away.
   */
  lemma CachedStatementsAreOnlyReplaced(now: int, before: seq<Event>, events: seq<Event>)
    requires Run(Boot(now), before).shared.statement.Some?
    ensures var was := Run(Boot(now), before).shared.statement;
      var later := Run(Run(Boot(now), before), events).shared.statement;
      later.Some? && was.value.issuedAt <= later.value.issuedAt
  {
    RunKeeps(Boot(now), before);
    OnlyNewer(Boot(now), before);
    OnlyNewer(Run(Boot(now), before), events);
  }

  /** What a refresh issues: five minutes from the clock's second, or to the end of the identity's lease if sooner. */
  lemma IssuedUntilTheLeaseEnds(now: int, lease: int, signed: bool)
    requires now >= 0
    ensures var s := Issue(now, lease, signed);
      && (s.Some? <==> signed && now >= SECOND && now / SECOND < lease / SECOND)
      && (s.Some? ==>
            && s.value.issuedAt * SECOND <= now < (s.value.issuedAt + 1) * SECOND
            && s.value.lease == lease && s.value.expiresAt * SECOND <= lease
            && (s.value.expiresAt == s.value.issuedAt + 300 || lease < (s.value.expiresAt + 1) * SECOND)
            && s.value.expiresAt <= s.value.issuedAt + 300)
  {
  }

  /** A caller that finds the statement nearly expired and nobody refreshing, up to the refresh it sets off. */
  function Asks(c: Caller): seq<Event> {
    [Peek(c), Decide(c), Start(c), Wait(c, true)]
  }

  /** That refresh, and how the caller goes on after it. */
  function Refreshes(c: Caller, ch: Channel, lease: Option<int>, ok: bool, elapsed: nat): seq<Event> {
    [Pins(ch, lease), Sign(ch, ok), Advance(elapsed), Finish(ch), Resume(c, false), PeekAgain(c), Answer(c)]
  }

  lemma RunCons(w: World, e: Event, rest: seq<Event>)
    ensures Run(w, [e] + rest) == Run(Step(w, e), rest)
  {
    hide Step;
    assert ([e] + rest)[1..] == rest;
  }

  lemma AskRun(w: World, c: Caller)
    requires PcOf(w, c) == Idle && w.shared.refreshing.None? && w.shared.made !in w.closed
    requires w.shared.lastTry.Some? ==> w.now - w.shared.lastTry.value >= 5 * SECOND
    requires w.shared.statement.Some? ==> w.now >= w.shared.statement.value.expiresAt * SECOND - 30 * SECOND
    ensures var w' := Run(w, Asks(c));
      && w'.callers == w.callers[c := Blocked(w.shared.made)]
      && w'.running == w.running[w.shared.made := Fetching]
      && w'.shared == Shared(w.shared.statement, Some(w.now), Some(w.shared.made), w.shared.made + 1)
      && (w'.now, w'.closed, w'.responses) == (w.now, w.closed, w.responses)
  {
    var w1 := Step(w, Peek(c));
    var w2 := Step(w1, Decide(c));
    var w3 := Step(w2, Start(c));
    var w4 := Step(w3, Wait(c, true));
    FourSteps(w, Peek(c), Decide(c), Start(c), Wait(c, true));
    assert w2 == At(w1, c, Starting) && PcOf(w2, c) == Starting;
    assert w3.callers == w.callers[c := Started(Some(w.shared.made))];
    assert w4.callers == w.callers[c := Blocked(w.shared.made)];
  }

  lemma FourSteps(w: World, a: Event, b: Event, c: Event, d: Event)
    ensures Run(w, [a, b, c, d]) == Step(Step(Step(Step(w, a), b), c), d)
  {
    hide Step, Run;
    var w1 := Step(w, a);
    var w2 := Step(w1, b);
    var w3 := Step(w2, c);
    assert [a, b, c, d] == [a] + [b, c, d] && [b, c, d] == [b] + [c, d] && [c, d] == [c] + [d] && [d] == [d] + [];
    RunCons(w, a, [b, c, d]);
    RunCons(w1, b, [c, d]);
    RunCons(w2, c, [d]);
    RunCons(w3, d, []);
    RunNothing(Step(w3, d));
  }

  lemma RunNothing(w: World)
    ensures Run(w, []) == w
  {
  }

  /** The refresh, from its pins to the closing of its channel. */
  lemma RefreshEnds(w: World, ch: Channel, lease: Option<int>, ok: bool, elapsed: nat)
    requires ch in w.running && w.running[ch].Fetching?
    ensures var w' := Run(w, [Pins(ch, lease), Sign(ch, ok), Advance(elapsed), Finish(ch)]);
      var issued := if lease.Some? then Issue(w.now, lease.value, ok) else None;
      && w'.shared.statement == (if issued.Some? then issued else w.shared.statement)
      && w'.callers == w.callers && w'.closed == w.closed + [ch] && w'.now == w.now + elapsed
      && w'.responses == w.responses
  {
    hide Run, Issue;
    FourSteps(w, Pins(ch, lease), Sign(ch, ok), Advance(elapsed), Finish(ch));
    var w1 := Step(w, Pins(ch, lease));
    var w2 := Step(w1, Sign(ch, ok));
    assert w2.running[ch] == Finishing(if lease.Some? then Issue(w.now, lease.value, ok) else None);
  }

  /** A caller whose channel is closed, up to its answer. */
  lemma CallerEnds(w: World, c: Caller, ch: Channel)
    requires PcOf(w, c) == Blocked(ch) && ch in w.closed
    ensures var w' := Run(w, [Resume(c, false), PeekAgain(c), Answer(c)]);
      var s := w.shared.statement;
      && w'.shared == w.shared && w'.now == w.now
      && w'.responses == w.responses +
           [if s.Some? && w.now < s.value.expiresAt * SECOND - 5 * SECOND then Served(s.value, w.now) else Unavailable]
  {
    hide Run;
    var w1 := Step(w, Resume(c, false));
    var w2 := Step(w1, PeekAgain(c));
    var w3 := Step(w2, Answer(c));
    RunCons(w, Resume(c, false), [PeekAgain(c), Answer(c)]);
    RunCons(w1, PeekAgain(c), [Answer(c)]);
    RunCons(w2, Answer(c), []);
    RunNothing(w3);
    assert [Resume(c, false), PeekAgain(c), Answer(c)] == [Resume(c, false)] + [PeekAgain(c), Answer(c)];
    assert [PeekAgain(c), Answer(c)] == [PeekAgain(c)] + [Answer(c)] && [Answer(c)] == [Answer(c)] + [];
  }

  lemma RefreshRun(w: World, c: Caller, ch: Channel, lease: Option<int>, ok: bool, elapsed: nat)
    requires PcOf(w, c) == Blocked(ch) && ch in w.running && w.running[ch].Fetching?
    ensures var w' := Run(w, Refreshes(c, ch, lease, ok, elapsed));
      var issued := if lease.Some? then Issue(w.now, lease.value, ok) else None;
      var inForce := if issued.Some? then issued else w.shared.statement;
      var later := w.now + elapsed;
      && w'.shared.statement == inForce && w'.now == later
      && w'.responses == w.responses +
           [if inForce.Some? && later < inForce.value.expiresAt * SECOND - 5 * SECOND
            then Served(inForce.value, later) else Unavailable]
  {
    hide Run, Issue, Step;
    var refresh := [Pins(ch, lease), Sign(ch, ok), Advance(elapsed), Finish(ch)];
    assert Refreshes(c, ch, lease, ok, elapsed) == refresh + [Resume(c, false), PeekAgain(c), Answer(c)];
    Then(w, refresh, [Resume(c, false), PeekAgain(c), Answer(c)]);
    RefreshEnds(w, ch, lease, ok, elapsed);
    CallerEnds(Run(w, refresh), c, ch);
  }

  lemma {:induction false} Then(w: World, events: seq<Event>, more: seq<Event>)
    ensures Run(w, events + more) == Run(Run(w, events), more)
    decreases events
  {
    if events == [] {
      assert events + more == more;
    } else {
      assert (events + more)[0] == events[0] && (events + more)[1..] == events[1..] + more;
      Then(Step(w, events[0]), events[1..], more);
    }
  }

  /**
   * A request that sets off its own refresh and waits for it: what is issued is served if it is good for more than
   * five seconds; when nothing is issued, the cached statement is, for as long as it is; else the answer is 503.
   */
  lemma OwnRefreshIsServed(w: World, c: Caller, lease: Option<int>, ok: bool, elapsed: nat)
    requires PcOf(w, c) == Idle && w.shared.refreshing.None? && w.shared.made !in w.closed
    requires w.shared.lastTry.Some? ==> w.now - w.shared.lastTry.value >= 5 * SECOND
    requires w.shared.statement.Some? ==> w.now >= w.shared.statement.value.expiresAt * SECOND - 30 * SECOND
    ensures var w' := Run(w, Asks(c) + Refreshes(c, w.shared.made, lease, ok, elapsed));
      var issued := if lease.Some? then Issue(w.now, lease.value, ok) else None;
      var inForce := if issued.Some? then issued else w.shared.statement;
      var later := w.now + elapsed;
      && w'.shared.statement == inForce
      && w'.responses == w.responses +
           [if inForce.Some? && later < inForce.value.expiresAt * SECOND - 5 * SECOND
            then Served(inForce.value, later) else Unavailable]
  {
    Then(w, Asks(c), Refreshes(c, w.shared.made, lease, ok, elapsed));
    AskRun(w, c);
    RefreshRun(Run(w, Asks(c)), c, w.shared.made, lease, ok, elapsed);
  }

  /**
   * A request with more than 30 s left is answered at once, and sets off a refresh exactly when no more than 60 s are
   * left, none runs, and none was tried in the last five seconds.
   */
  lemma PlentyLeftIsServedAtOnce(w: World, c: Caller)
    requires PcOf(w, c) == Idle
    requires w.shared.statement.Some? && w.now < w.shared.statement.value.expiresAt * SECOND - 30 * SECOND
    ensures var s := w.shared;
      var w' := Run(w, [Peek(c), Decide(c), Start(c)]);
      var refreshes := w.now >= s.statement.value.expiresAt * SECOND - 60 * SECOND && s.refreshing.None?
                       && (s.lastTry.None? || w.now - s.lastTry.value >= 5 * SECOND);
      && w'.responses == w.responses + [Served(s.statement.value, w.now)] && PcOf(w', c) == Idle
      && w'.running == (if refreshes then w.running[s.made := Fetching] else w.running)
      && w'.starts == w.starts + if refreshes then [w.now] else []
  {
    var rest := [Decide(c), Start(c)];
    var w1 := Step(w, Peek(c));
    var w2 := Step(w1, Decide(c));
    assert w.starts + [] == w.starts;
    assert [Peek(c), Decide(c), Start(c)] == [Peek(c)] + rest && rest == [Decide(c)] + [Start(c)];
    assert [Start(c)] == [Start(c)] + [];
    RunCons(w, Peek(c), rest);
    RunCons(w1, Decide(c), [Start(c)]);
    RunCons(w2, Start(c), []);
  }

  /** A request that the limiter refuses waits for nobody: it gets the cached statement while good, and else 429. */
  lemma RefusedCallersDoNotWait(w: World, c: Caller)
    requires w.shared.refreshing.Some? && PcOf(w, c) == Started(w.shared.refreshing)
    requires w.shared.refreshing.value !in w.closed
    ensures var w' := Run(w, [Wait(c, false), PeekAgain(c), Answer(c)]);
      var s := w.shared.statement;
      w'.responses == w.responses +
        [if s.Some? && w.now < s.value.expiresAt * SECOND - 5 * SECOND then Served(s.value, w.now)
         else TooManyRequests]
  {
    var rest := [PeekAgain(c), Answer(c)];
    var w1 := Step(w, Wait(c, false));
    var w2 := Step(w1, PeekAgain(c));
    assert [Wait(c, false), PeekAgain(c), Answer(c)] == [Wait(c, false)] + rest && rest == [PeekAgain(c)] + [Answer(c)];
    assert [Answer(c)] == [Answer(c)] + [];
    RunCons(w, Wait(c, false), rest);
    RunCons(w1, PeekAgain(c), [Answer(c)]);
    RunCons(w2, Answer(c), []);
  }

  /**
   * A refresh that succeeds under a shorter lease does withdraw a statement that could still be served: cached until
   * 1300 s, at 1280 s one is issued until 1283 s, and the request gets 503.
   */
  lemma ShorterLeaseWithdraws(c: Caller)
    ensures var cached := Statement(1000, 1300, 1300 * SECOND);
      var w := World(1280 * SECOND, Shared(Some(cached), None, None, 0), map[], map[], [], [], []);
      Run(w, Asks(c) + Refreshes(c, 0, Some(1283 * SECOND), true, 0)).responses == [Unavailable]
      && w.now < cached.expiresAt * SECOND - 5 * SECOND
  {
    hide Run;
    var cached := Statement(1000, 1300, 1300 * SECOND);
    var w := World(1280 * SECOND, Shared(Some(cached), None, None, 0), map[], map[], [], [], []);
    OwnRefreshIsServed(w, c, Some(1283 * SECOND), true, 0);
    assert Issue(w.now, 1283 * SECOND, true) == Some(Statement(1280, 1283, 1283 * SECOND));
  }

  // ---------------------------------------------------------------------------
  // The server's fields and the sections under its mutex
  // ---------------------------------------------------------------------------

  class AttestorTLS {
    var statement: Option<Statement>
    var lastTry: Option<int>
    var refreshing: Option<Channel>
    var made: nat
    var closed: seq<Channel>

    constructor ()
      ensures Current() == Shared(None, None, None, 0) && closed == []
    {
      statement, lastTry, refreshing, made, closed := None, None, None, 0, [];
    }

    function Current(): Shared
      reads this
    {
      Shared(statement, lastTry, refreshing, made)
    }

    /** The section of startRefresh; the channel is new exactly when a refresh is set off. */
    method StartRefreshing(now: int) returns (done: Option<Channel>)
      modifies this`lastTry, this`refreshing, this`made
      ensures (Current(), done) == StartRefresh(old(Current()), now)
      ensures var waits := old(lastTry).Some? && now - old(lastTry).value < 5 * SECOND;
        var starts := old(refreshing).None? && !waits;
        && done == (if starts then Some(old(made)) else old(refreshing))
        && refreshing == done
        && made == old(made) + (if starts then 1 else 0)
        && lastTry == if starts then Some(now) else old(lastTry)
    {
      if refreshing.Some? {
        return refreshing;
      }
      if lastTry.Some? && now - lastTry.value < RETRY_INTERVAL {
        return None;
      }
      lastTry := Some(now);
      done := Some(made);
      made := made + 1;
      refreshing := done;
    }

    /** The closing section of refresh. */
    method Refreshed(done: Channel, issued: Option<Statement>)
      modifies this`statement, this`refreshing, this`closed
      ensures Current() == EndRefresh(old(Current()), issued) && closed == old(closed) + [done]
      ensures statement == (if issued.Some? then issued else old(statement)) && refreshing == None
    {
      if issued.Some? {
        statement := issued;
      }
      refreshing := None;
      closed := closed + [done];
    }

    /**
     * statement, for one request from start to end: `during` is how the refresh it waits for ends, if it
     * waits for one, and `later` the time by then.
     */
    method Serve(now: int, allowed: bool, during: Option<Statement>, later: int) returns (r: Response)
      requires Sound(statement, now) && Sound(during, later) && now <= later
      modifies this
      ensures r.Served? ==> Sound(Some(r.statement), r.at)
      ensures var was, tried := old(statement), old(lastTry);
        var plenty := was.Some? && now < was.value.expiresAt * SECOND - 30 * SECOND;
        var young := was.Some? && now < was.value.expiresAt * SECOND - 60 * SECOND;
        var idle := tried.Some? && now - tried.value < 5 * SECOND;
        var running := old(refreshing).Some? || !idle;
        // A failed refresh leaves the cached statement where it was.
        && statement == (if !plenty && running && allowed && during.Some? then during else was)
        && r == (if plenty then Served(was.value, now)
                 else if statement.Some? && later < statement.value.expiresAt * SECOND - 5 * SECOND
                 then Served(statement.value, later)
                 else if running && !allowed then TooManyRequests else Unavailable)
        && lastTry == if old(refreshing).None? && !idle && !young then Some(now) else tried
    {
      SoundLater(statement, now, later);
      if LeavesMoreThan(SERVE_MARGIN, statement, now) {
        var body := statement.value;
        if !LeavesMoreThan(REFRESH_AHEAD, statement, now) {
          var _ := StartRefreshing(now);
        }
        return Served(body, now);
      }
      var limited := false;
      var done := StartRefreshing(now);
      if done.Some? {
        limited := !allowed;
        if !limited {
          Refreshed(done.value, during);
        }
      }
      if LeavesMoreThan(FAIL_MARGIN, statement, later) {
        return Served(statement.value, later);
      }
      return if limited then TooManyRequests else Unavailable;
    }
  }
}
