/**
The top-up loop of one (user, provider) pair: the monitor asks the payment layer for a
deposit unless a deposit is in flight or in backoff, and a poller follows each deposit
to its end. The two marks are Redis keys with an expiry. Every Redis command, HTTP
exchange and start of a goroutine is one step; the monitor is the only requester.
*/
module TopUp {
  import opened Wrappers

  /** Durations in the clock's own unit, of which `second` make a second. */
  datatype Config = Config(pollTimeout: nat, monitorInterval: nat, second: nat)

  /** How much longer than the poll timeout the in-flight key lives. */
  const SLACK_SECONDS := 30

  ghost predicate ValidConfig(c: Config) {
    c.second > 0
  }

  /** What orderly runs allow for the start of a goroutine, and again for a poller to act on its timeout. */
  function Lag(c: Config): nat {
    SLACK_SECONDS / 2 * c.second
  }

  function BackoffLength(c: Config, timedOut: bool): nat {
    (if timedOut then 5 else 2) * c.monitorInterval
  }

  datatype Desk = Idle | Asking | Accepted | Spawning(since: int)

  /** A poller polls, or has deleted the in-flight key and has still to set the backoff key. */
  datatype Poller = Polling(start: int) | Dropped(timedOut: bool)

  datatype Entry = Requested(at: int) | BackedOff(at: int, timedOut: bool)

  datatype World = World(now: int, inflight: Option<int>, backoff: Option<int>, desk: Desk, pollers: map<nat, Poller>,
                         made: nat, log: seq<Entry>)

  datatype Event =
    | Advance(elapsed: nat)
    | Check(wanted: bool, firstUp: bool, secondUp: bool)
    | Reply(ok: bool)
    | Mark(ok: bool)
    | Spawn
    | Confirmed(p: nat, ok: bool)
    | Failed(p: nat, ok: bool)
    | TimedOut(p: nat, ok: bool)
    | BackOff(p: nat, ok: bool)

  predicate Alive(key: Option<int>, now: int) {
    key.Some? && now < key.value
  }

  /** IsInflightOrBackoff: a key that cannot be read counts as absent. */
  predicate Blocked(w: World, firstUp: bool, secondUp: bool) {
    (firstUp && Alive(w.inflight, w.now)) || (secondUp && Alive(w.backoff, w.now))
  }

  predicate Polls(w: World, p: nat) {
    p in w.pollers && w.pollers[p].Polling?
  }

  function Drop(w: World, ok: bool): World {
    if ok then w.(inflight := None) else w
  }

  predicate Passes(w: World, e: Event) {
    e.Check? && w.desk.Idle? && e.wanted && !Blocked(w, e.firstUp, e.secondUp)
  }

  function Step(c: Config, w: World, e: Event): World {
    match e
    case Advance(elapsed) => w.(now := w.now + elapsed)
    case Check(_, _, _) => if Passes(w, e) then w.(desk := Asking, log := w.log + [Requested(w.now)]) else w
    case Reply(ok) => if w.desk.Asking? then w.(desk := if ok then Accepted else Idle) else w
    case Mark(ok) =>
      if !w.desk.Accepted? then w
      else w.(desk := Spawning(w.now),
              inflight := if ok then Some(w.now + c.pollTimeout + SLACK_SECONDS * c.second) else w.inflight)
    case Spawn =>
      if !w.desk.Spawning? then w
      else w.(desk := Idle, pollers := w.pollers[w.made := Polling(w.now)], made := w.made + 1)
    case Confirmed(p, ok) => if Polls(w, p) then Drop(w, ok).(pollers := w.pollers - {p}) else w
    case Failed(p, ok) =>
      if Polls(w, p) then Drop(w, ok).(pollers := w.pollers[p := Dropped(false)]) else w
    case TimedOut(p, ok) =>
      if Polls(w, p) && w.now >= w.pollers[p].start + c.pollTimeout
      then Drop(w, ok).(pollers := w.pollers[p := Dropped(true)]) else w
    case BackOff(p, ok) =>
      if p !in w.pollers || !w.pollers[p].Dropped? then w
      else
        var timedOut := w.pollers[p].timedOut;
        var done := w.(pollers := w.pollers - {p});
        if !ok then done
        else done.(backoff := Some(w.now + BackoffLength(c, timedOut)), log := w.log + [BackedOff(w.now, timedOut)])
  }

  function Run(c: Config, w: World, events: seq<Event>): World
    decreases events
  {
    if events == [] then w else Run(c, Step(c, w, events[0]), events[1..])
  }

  function Boot(now: int): World {
    World(now, None, None, Idle, map[], 0, [])
  }

  /**
   * No goroutine is late by as much as half the slack, the in-flight mark is written, and the monitor does not ask
   * over a standing one because it cannot read it.
   */
  ghost predicate Timely(c: Config, w: World, e: Event) {
    && (e.Advance? ==> OnTime(c, w.(now := w.now + e.elapsed)))
    && (e.Mark? ==> e.ok)
    && (Passes(w, e) ==> e.firstUp || !Alive(w.inflight, w.now))
  }

  ghost predicate OnTime(c: Config, w: World) {
    && (w.desk.Spawning? ==> w.now < w.desk.since + Lag(c))
    && forall p | Polls(w, p) :: w.now < w.pollers[p].start + c.pollTimeout + Lag(c)
  }

  ghost predicate TimelyRun(c: Config, w: World, events: seq<Event>)
    decreases events
  {
    events == [] || (Timely(c, w, events[0]) && TimelyRun(c, Step(c, w, events[0]), events[1..]))
  }

  /**
   * The monitor does not ask between a poller's deletion of the one key and its setting of the other, nor over a
   * standing backoff key because it cannot read it.
   */
  ghost predicate Unbroken(w: World, e: Event) {
    Passes(w, e) ==>
      && (forall p | p in w.pollers :: !w.pollers[p].Dropped?)
      && (e.secondUp || !Alive(w.backoff, w.now))
  }

  ghost predicate UnbrokenRun(c: Config, w: World, events: seq<Event>)
    decreases events
  {
    events == [] || (Unbroken(w, events[0]) && UnbrokenRun(c, Step(c, w, events[0]), events[1..]))
  }

  // ---------------------------------------------------------------------------
  // One deposit at a time
  // ---------------------------------------------------------------------------

  /** The deposits that are being followed. */
  ghost function Followed(w: World): set<nat> {
    set p | p in w.pollers && w.pollers[p].Polling?
  }

  /**
   * At most one deposit is followed, none while the monitor is busy with a request; the in-flight key outlives its
   * poller.
   */
  ghost predicate Single(c: Config, w: World) {
    && OnTime(c, w)
    && (forall p, q | Polls(w, p) && Polls(w, q) :: p == q)
    && (w.desk != Idle ==> forall p | p in w.pollers :: !Polls(w, p))
    && (forall p | p in w.pollers :: p < w.made)
    && (w.desk.Spawning? ==> w.inflight == Some(w.desk.since + c.pollTimeout + SLACK_SECONDS * c.second))
    && (forall p | Polls(w, p) :: w.inflight.Some? && w.pollers[p].start + c.pollTimeout + Lag(c) <= w.inflight.value)
  }

  lemma StepKeepsSingle(c: Config, w: World, e: Event)
    requires ValidConfig(c) && Single(c, w) && Timely(c, w, e)
    ensures Single(c, Step(c, w, e))
  {
    if Passes(w, e) {
      assert forall p | p in w.pollers :: !Polls(w, p);
    }
    var w' := Step(c, w, e);
    forall p | Polls(w', p)
      ensures (Polls(w, p) && w'.pollers[p] == w.pollers[p]) || (e.Spawn? && w.desk.Spawning? && p == w.made)
    {
    }
  }

  lemma {:induction false} RunKeepsSingle(c: Config, w: World, events: seq<Event>)
    requires ValidConfig(c) && Single(c, w) && TimelyRun(c, w, events)
    ensures Single(c, Run(c, w, events))
    decreases events
  {
    if events != [] {
      StepKeepsSingle(c, w, events[0]);
      RunKeepsSingle(c, Step(c, w, events[0]), events[1..]);
    }
  }

  /**
   * In every timely run, wherever the monitor looks, the pair never has two deposits being followed, nor one
   * followed while another is asked for.
   */
  lemma OneDepositAtATime(c: Config, now: int, events: seq<Event>)
    requires ValidConfig(c) && TimelyRun(c, Boot(now), events)
    ensures var w := Run(c, Boot(now), events);
      |Followed(w)| + (if w.desk != Idle then 1 else 0) <= 1
  {
    RunKeepsSingle(c, Boot(now), events);
    var w := Run(c, Boot(now), events);
    if Followed(w) != {} {
      var p :| p in Followed(w);
      assert Polls(w, p);
      forall q | q in Followed(w) ensures q == p {
        assert Polls(w, q);
      }
      assert Followed(w) == {p};
    }
  }

  // ---------------------------------------------------------------------------
  // Backoff
  // ---------------------------------------------------------------------------

  /** There is at most one poller, following or not, and none during a request or a backoff. */
  ghost predicate Alone(w: World) {
    && (forall p, q | p in w.pollers && q in w.pollers :: p == q)
    && (w.desk != Idle ==> w.pollers == map[])
    && (Alive(w.backoff, w.now) ==> w.desk.Idle? && w.pollers == map[])
  }

  /** A backoff was honoured so far: it is over, or its key still stands. */
  predicate Honoured(c: Config, w: World, b: Entry) {
    b.BackedOff? ==>
      b.at <= w.now && (Until(c, b) <= w.now || (w.backoff.Some? && Until(c, b) <= w.backoff.value))
  }

  function Until(c: Config, b: Entry): int
    requires b.BackedOff?
  {
    b.at + BackoffLength(c, b.timedOut)
  }

  predicate Quiet(c: Config, log: seq<Entry>) {
    forall i, j | 0 <= i < j < |log| && log[i].BackedOff? && log[j].Requested? :: log[j].at >= Until(c, log[i])
  }

  ghost predicate Inv(c: Config, w: World) {
    Single(c, w) && Alone(w) && (forall b | b in w.log :: Honoured(c, w, b)) && Quiet(c, w.log)
  }

  lemma StepKeepsAlone(c: Config, w: World, e: Event)
    requires ValidConfig(c) && Single(c, w) && Alone(w) && Timely(c, w, e) && Unbroken(w, e)
    ensures Alone(Step(c, w, e))
  {
    if Passes(w, e) {
      assert forall p | p in w.pollers :: !Polls(w, p);
      assert w.pollers.Keys == {};
    }
  }

  lemma StepKeepsQuiet(c: Config, w: World, e: Event)
    requires ValidConfig(c) && Inv(c, w) && Unbroken(w, e)
    ensures var w' := Step(c, w, e); (forall b | b in w'.log :: Honoured(c, w', b)) && Quiet(c, w'.log)
  {
    hide BackoffLength;
    var w' := Step(c, w, e);
    forall b | b in w'.log ensures Honoured(c, w', b) {
      assert b in w.log || b == w'.log[|w.log|];
    }
    if Passes(w, e) {
      assert forall i | 0 <= i < |w.log| :: w.log[i] in w.log;
    }
  }

  lemma {:induction false} RunKeeps(c: Config, w: World, events: seq<Event>)
    requires ValidConfig(c) && Inv(c, w) && TimelyRun(c, w, events) && UnbrokenRun(c, w, events)
    ensures Inv(c, Run(c, w, events))
    decreases events
  {
    if events != [] {
      StepKeepsSingle(c, w, events[0]);
      StepKeepsAlone(c, w, events[0]);
      StepKeepsQuiet(c, w, events[0]);
      RunKeeps(c, Step(c, w, events[0]), events[1..]);
    }
  }

  /** After a failed deposit no request is made for two monitor intervals, after a timeout for five. */
  lemma BackoffIsHonoured(c: Config, now: int, events: seq<Event>, i: nat, j: nat)
    requires ValidConfig(c) && TimelyRun(c, Boot(now), events) && UnbrokenRun(c, Boot(now), events)
    requires i < j < |Run(c, Boot(now), events).log|
    requires Run(c, Boot(now), events).log[i].BackedOff? && Run(c, Boot(now), events).log[j].Requested?
    ensures var log := Run(c, Boot(now), events).log;
      log[j].at >= log[i].at + (if log[i].timedOut then 5 else 2) * c.monitorInterval
  {
    RunKeeps(c, Boot(now), events);
  }

  // ---------------------------------------------------------------------------
  // Why the runs are orderly
  // ---------------------------------------------------------------------------

  /** A request that the payment layer refuses leaves nothing behind. */
  lemma RefusedRequestLeavesNothing(c: Config, w: World)
    requires w.desk.Asking?
    ensures Step(c, w, Reply(false)) == w.(desk := Idle)
  {
  }

  /**
   * A deposit that is being followed keeps the monitor from asking for exactly the poll timeout and thirty seconds
   * from its mark, unless it ends before, or a backoff still does.
   */
  lemma MarkHoldsExactly(c: Config, w: World, delay: nat)
    requires w.desk.Accepted?
    ensures var later := Step(c, Step(c, Step(c, w, Mark(true)), Spawn), Advance(delay));
      && w.made in later.pollers && later.pollers[w.made] == Polling(w.now)
      && (Passes(later, Check(true, true, true)) <==>
            delay >= c.pollTimeout + 30 * c.second && (w.backoff.None? || w.backoff.value <= w.now + delay))
      && !Passes(later, Check(false, true, true))
  {
  }

  /** A deposit that is confirmed leaves neither poller nor mark, and no backoff. */
  lemma ConfirmedDepositFreesThePair(c: Config, w: World, p: nat)
    requires Polls(w, p) && w.desk.Idle?
    ensures Step(c, w, Confirmed(p, true)) == w.(inflight := None, pollers := w.pollers - {p})
    ensures Passes(Step(c, w, Confirmed(p, true)), Check(true, true, true)) <==>
            w.backoff.None? || w.backoff.value <= w.now
  {
  }

  /**
   * A failed deposit keeps the monitor from asking for exactly two of its intervals, one that timed out for exactly
   * five; and none times out before its poll timeout.
   */
  lemma BackoffHoldsExactly(c: Config, w: World, p: nat, timedOut: bool, delay: nat)
    requires Polls(w, p) && w.desk.Idle?
    ensures var end := if timedOut then TimedOut(p, true) else Failed(p, true);
      var w' := Step(c, Step(c, w, end), BackOff(p, true));
      if timedOut && w.now < w.pollers[p].start + c.pollTimeout then w' == w
      else
        && p !in w'.pollers && w'.log == w.log + [BackedOff(w.now, timedOut)]
        && (Passes(Step(c, w', Advance(delay)), Check(true, true, true)) <==>
              delay >= (if timedOut then 5 else 2) * c.monitorInterval)
  {
    var end := if timedOut then TimedOut(p, true) else Failed(p, true);
    var w1 := Step(c, w, end);
    if w1 != w {
      assert w1.pollers[p] == Dropped(timedOut) && w1.log == w.log;
    }
  }

  /** A look between the two key writes finds neither key: the request goes out and its backoff comes after. */
  lemma LookBetweenTheKeysRequests(c: Config, w: World, p: nat)
    requires Polls(w, p) && w.desk.Idle? && !Alive(w.backoff, w.now)
    ensures var w' := Step(c, Step(c, Step(c, w, Failed(p, true)), Check(true, true, true)), BackOff(p, true));
      && w'.desk == Asking && w'.log == w.log + [Requested(w.now), BackedOff(w.now, false)]
      && (c.monitorInterval > 0 ==> Alive(w'.backoff, w'.now))
  {
    var w2 := Step(c, Step(c, w, Failed(p, true)), Check(true, true, true));
    assert w2.log == w.log + [Requested(w.now)] && w2.pollers[p] == Dropped(false);
    assert Step(c, w2, BackOff(p, true)).log == w2.log + [BackedOff(w.now, false)];
  }

  /**
   * Exactly when a late poller is overtaken: the monitor can ask again while the deposit is followed once the
   * in-flight key has lapsed, and then two are.
   */
  lemma LatePollerIsOvertaken(c: Config, w: World, p: nat, delay: nat)
    requires ValidConfig(c) && Polls(w, p) && p < w.made && w.desk.Idle? && w.inflight.Some? && !Alive(w.backoff, w.now)
    ensures var late := Step(c, w, Advance(delay));
      && (Passes(late, Check(true, true, true)) <==> w.now + delay >= w.inflight.value)
      && (Passes(late, Check(true, true, true)) ==>
            {p, w.made} <= Followed(Run(c, late, [Check(true, true, true), Reply(true), Mark(true), Spawn])))
  {
    var late := Step(c, w, Advance(delay));
    if Passes(late, Check(true, true, true)) {
      FourSteps(c, late, Check(true, true, true), Reply(true), Mark(true), Spawn);
    }
  }

  lemma FourSteps(c: Config, w: World, e1: Event, e2: Event, e3: Event, e4: Event)
    ensures Run(c, w, [e1, e2, e3, e4]) == Step(c, Step(c, Step(c, Step(c, w, e1), e2), e3), e4)
  {
    hide Step;
    assert [e1, e2, e3, e4][1..] == [e2, e3, e4] && [e2, e3, e4][1..] == [e3, e4] && [e3, e4][1..] == [e4];
    var w1 := Step(c, w, e1);
    var w2 := Step(c, w1, e2);
    var w3 := Step(c, w2, e3);
    assert Run(c, w3, [e4]) == Step(c, w3, e4);
    assert Run(c, w2, [e3, e4]) == Run(c, w3, [e4]);
    assert Run(c, w1, [e2, e3, e4]) == Run(c, w2, [e3, e4]);
  }

  /**
   * Exactly when the monitor asks over a standing in-flight key: it cannot read it, and no backoff that it can read
   * holds it back. While a deposit is followed, two then are.
   */
  lemma UnreadableKeyIsAskedOver(c: Config, w: World, p: nat, firstUp: bool, secondUp: bool)
    requires ValidConfig(c) && Polls(w, p) && p < w.made && w.desk.Idle? && Alive(w.inflight, w.now)
    ensures var look := Check(true, firstUp, secondUp);
      && (Passes(w, look) <==> !firstUp && !(secondUp && Alive(w.backoff, w.now)))
      && (Passes(w, look) ==> {p, w.made} <= Followed(Run(c, w, [look, Reply(true), Mark(true), Spawn])))
  {
    FourSteps(c, w, Check(true, firstUp, secondUp), Reply(true), Mark(true), Spawn);
  }

  /** Exactly when a request goes out during a backoff with nothing in flight: its key cannot be read. */
  lemma UnreadableBackoffIsAskedOver(c: Config, w: World, firstUp: bool, secondUp: bool)
    requires w.desk.Idle? && Alive(w.backoff, w.now) && !Alive(w.inflight, w.now)
    ensures var asked := Step(c, w, Check(true, firstUp, secondUp));
      && (!secondUp ==> asked.log == w.log + [Requested(w.now)] && w.now < w.backoff.value)
      && (secondUp ==> asked == w)
  {
  }

  /** Exactly when a deposit just followed is asked for again at once: its in-flight mark was lost. */
  lemma AskedAgainIffMarkLost(c: Config, w: World, ok: bool)
    requires ValidConfig(c) && w.desk == Accepted && !Blocked(w, true, true)
    ensures var spawned := Step(c, Step(c, w, Mark(ok)), Spawn);
      && Polls(spawned, w.made)
      && (Passes(spawned, Check(true, true, true)) <==> !ok)
      && (!ok ==> {w.made, w.made + 1} <=
                  Followed(Run(c, spawned, [Check(true, true, true), Reply(true), Mark(true), Spawn])))
  {
    var spawned := Step(c, Step(c, w, Mark(ok)), Spawn);
    FourSteps(c, spawned, Check(true, true, true), Reply(true), Mark(true), Spawn);
  }

  // ---------------------------------------------------------------------------
  // The payment layer's own loop
  // ---------------------------------------------------------------------------

  /** One status poll: when it is made, and the status it reads; a poll that fails reads "". */
  datatype Poll = Poll(at: int, status: string)

  datatype Verdict = Deposited | Refused | GaveUp

  /** The first poll that reads a final status, before the deadline and with nothing but undecided polls before it. */
  ghost predicate FirstToSettle(polls: seq<Poll>, deadline: int, i: nat) {
    && i < |polls| && polls[i].at < deadline && polls[i].status in ["success", "complete", "failed"]
    && forall j | 0 <= j < i :: polls[j].at < deadline && polls[j].status !in ["success", "complete", "failed"]
  }

  type Pair = (string, string)

  class PaymentKeys {
    const config: Config
    var inflight: map<Pair, int>
    var backoff: map<Pair, int>

    constructor (config: Config)
      ensures this.config == config && inflight == map[] && backoff == map[]
    {
      this.config := config;
      inflight, backoff := map[], map[];
    }

    /** IsInflightOrBackoff: a key that cannot be read counts as absent. */
    method IsInflightOrBackoff(pair: Pair, now: int, firstUp: bool, secondUp: bool) returns (blocked: bool)
      ensures blocked <==>
              ((firstUp && pair in inflight && now < inflight[pair]) ||
               (secondUp && pair in backoff && now < backoff[pair]))
    {
      if firstUp && pair in inflight && now < inflight[pair] {
        return true;
      }
      return secondUp && pair in backoff && now < backoff[pair];
    }

    /**
     * pollDepositStatus: the first poll in time that reads a final status decides, else the deadline does. The
     * in-flight key goes in every case and a backoff is set at `end` unless the deposit was made, each only if
     * Redis takes the command, since their errors are ignored.
     */
    method PollDepositStatus(pair: Pair, start: int, polls: seq<Poll>, end: int, dropped: bool, marked: bool)
      returns (verdict: Verdict)
      modifies this
      ensures var deadline := start + config.pollTimeout;
        && (verdict.GaveUp? <==> !exists i: nat :: FirstToSettle(polls, deadline, i))
        && forall i: nat :: FirstToSettle(polls, deadline, i) ==> (verdict.Refused? <==> polls[i].status == "failed")
      ensures inflight == old(inflight) - if dropped then {pair} else {}
      ensures backoff == if verdict.Deposited? || !marked then old(backoff)
                         else old(backoff)[pair := end + (if verdict.GaveUp? then 5 else 2) * config.monitorInterval]
    {
      var deadline := start + config.pollTimeout;
      verdict := GaveUp;
      var i := 0;
      while i < |polls| && polls[i].at < deadline
        invariant i <= |polls|
        invariant forall j | 0 <= j < i ::
                    polls[j].at < deadline && polls[j].status !in ["success", "complete", "failed"]
        invariant verdict.GaveUp?
        invariant inflight == old(inflight) && backoff == old(backoff)
      {
        var status := polls[i].status;
        if status == "success" || status == "complete" {
          verdict := Deposited;
        } else if status == "failed" {
          verdict := Verdict.Refused;
        }
        if !verdict.GaveUp? {
          assert FirstToSettle(polls, deadline, i);
          break;
        }
        i := i + 1;
      }
      if dropped {
        inflight := inflight - {pair};
      }
      if marked && verdict.Refused? {
        backoff := backoff[pair := end + 2 * config.monitorInterval];
      }
      if marked && verdict.GaveUp? {
        backoff := backoff[pair := end + 5 * config.monitorInterval];
      }
      assert inflight == old(inflight) - if dropped then {pair} else {};
    }
  }
}
