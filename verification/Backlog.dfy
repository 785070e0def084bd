/** How a backlog of unbilled periods is worked off, tick by tick. */
module Backlog {
  import opened Arithmetic
  import opened Sequences
  import opened Ledger
  import opened LedgerLaws

  const PERIODS_PER_TICK := CATCHUP_CHUNK_INTERVALS * CATCHUP_MAX_VOUCHERS_PER_TICK

  ghost predicate ErrorFree(f: Fates) {
    forall at: nat, k: nat :: f.pushed(at, k).Answered? && f.written(at, k).Answered?
  }

  /** A clock moved by `ticks` ticks, one interval apart, the first at time `now`. */
  function Iterate(tick: (int, int) -> int, interval: int, next: int, now: int, ticks: nat): int
    decreases ticks
  {
    if ticks == 0 then next else Iterate(tick, interval, tick(next, now), now + interval, ticks - 1)
  }

  /** The periods a catch-up bills when nothing fails. */
  function Periods(overdue: int, k: nat): int
    decreases CATCHUP_MAX_VOUCHERS_PER_TICK - k
  {
    if overdue <= 0 || k >= CATCHUP_MAX_VOUCHERS_PER_TICK then 0
    else Min(overdue, CATCHUP_CHUNK_INTERVALS) + Periods(overdue - Min(overdue, CATCHUP_CHUNK_INTERVALS), k + 1)
  }

  lemma {:induction false} PeriodsClosed(overdue: int, k: nat)
    requires overdue >= 0 && k <= CATCHUP_MAX_VOUCHERS_PER_TICK
    ensures Periods(overdue, k) == Min(overdue, CATCHUP_CHUNK_INTERVALS * (CATCHUP_MAX_VOUCHERS_PER_TICK - k))
    decreases CATCHUP_MAX_VOUCHERS_PER_TICK - k
  {
    if overdue > 0 && k < CATCHUP_MAX_VOUCHERS_PER_TICK {
      PeriodsClosed(overdue - Min(overdue, CATCHUP_CHUNK_INTERVALS), k + 1);
    }
  }

  lemma {:induction false} CleanCatchUp(c: Config, rate: int, next: int, overdue: int, k: nat, at: nat, f: Fates)
    requires c.interval > 0 && ErrorFree(f)
    ensures ClockAfter(next, CatchUp(c, rate, next, overdue, k, at, f)) == next + c.interval * Periods(overdue, k)
    decreases CATCHUP_MAX_VOUCHERS_PER_TICK - k
  {
    if overdue > 0 && k < CATCHUP_MAX_VOUCHERS_PER_TICK {
      var chunk := Min(overdue, CATCHUP_CHUNK_INTERVALS);
      var end := next + c.interval * chunk;
      var rest := CatchUp(c, rate, end, overdue - chunk, k + 1, at, f);
      assert f.pushed(at, k).Answered? && f.written(at, k).Answered?;
      assert CatchUp(c, rate, next, overdue, k, at, f) == [Window(next, end, true)] + rest;
      hide CatchUp;
      CleanCatchUp(c, rate, end, overdue - chunk, k + 1, at, f);
      ClockAfterCons(next, Window(next, end, true), rest);
      Distribute(c.interval, chunk, Periods(overdue - chunk, k + 1));
    }
  }

  /** Which backlog a lateness of `d` is. */
  lemma {:induction false} Quotient(i: int, d: int, n: int)
    requires i > 0 && d >= 0
    ensures n == d / i + 1 <==> i * (n - 1) <= d < i * n
    ensures d / i + 1 >= 1
  {
    var q := d / i;
    assert i * q <= d < i * q + i;
    Distribute(i, q, 1);
    Distribute(i, n - 1, 1);
    if n - 1 < q {
      Ordered(i, n, q);
    } else if q < n - 1 {
      Ordered(i, q + 1, n - 1);
    }
  }

  lemma TickArithmetic(i: int, d: int, n: int)
    requires i > 0 && i * (n - 1) <= d < i * n
    ensures i * n <= d + i
    ensures n > PERIODS_PER_TICK ==>
              var left := d - i * PERIODS_PER_TICK;
              left >= 0 && i * (n - PERIODS_PER_TICK) <= left + i < i * (n - (PERIODS_PER_TICK - 1))
  {
    Distribute(i, n, -1);
    Distribute(i, n, -PERIODS_PER_TICK);
    Distribute(i, n, -(PERIODS_PER_TICK - 1));
    if n > PERIODS_PER_TICK { Ordered(i, PERIODS_PER_TICK, n - 1); }
  }

  function Moved(c: Config, next: int, now: int): int
    requires c.interval > 0 && next <= now
  {
    next + c.interval * Min(Overdue(c, next, now), PERIODS_PER_TICK)
  }

  function NextClock(c: Config, next: int, now: int): int
    requires c.interval > 0
  {
    if now < next then next else Moved(c, next, now)
  }

  lemma NextIsMoved(c: Config, next: int, now: int)
    requires c.interval > 0 && next <= now
    ensures NextClock(c, next, now) == Moved(c, next, now)
  {
  }

  function Ticked(c: Config, s: Session, now: int): Session
    requires c.interval > 0
  {
    s.(next := NextClock(c, s.next, now))
  }

  /** An error-free catch-up moves the clock by the periods due, at most 600. */
  lemma CatchUpMoves(c: Config, rate: int, next: int, now: int, at: nat, f: Fates)
    requires c.interval > 0 && next <= now && ErrorFree(f)
    ensures ClockAfter(next, CatchUp(c, rate, next, Overdue(c, next, now), 0, at, f)) == Moved(c, next, now)
  {
    var n := Overdue(c, next, now);
    assert n >= 1 by { Quotient(c.interval, now - next, n); }
    CleanCatchUp(c, rate, next, n, 0, at, f);
    PeriodsClosed(n, 0);
  }

  lemma VisitMoves(c: Config, st: State, x: Scanned, at: nat, now: int, live: Listing, f: Fates)
    requires c.interval > 0 && ErrorFree(f) && !Missing(x.id, live)
    requires x.id in st.sessions && st.sessions[x.id] == x.session
    ensures var d := Visit(c, st, x, at, now, live, f);
      x.id in d.sessions && d.sessions[x.id] == Ticked(c, x.session, now)
  {
    if Due(x.session, now) {
      CatchUpMoves(c, RateOf(c, x.session), x.session.next, now, at, f);
      NotAdvanced(c, x, at, now, live, f);
      hide CatchUp, ClockAfter, VouchersOf, Moved;
    }
  }

  ghost predicate StillToVisit(scan: seq<Scanned>, at: nat, id: string) {
    exists j :: at <= j < |scan| && scan[j].id == id
  }

  lemma {:induction false} VisitsMove(c: Config, st: State, scan: seq<Scanned>, at: nat, now: int, live: Listing,
                                      f: Fates, id: string)
    requires c.interval > 0 && ErrorFree(f) && !Missing(id, live) && id in st.sessions
    requires at <= |scan| && FreshCopy(st, scan, at, id)
    ensures var d := Visits(c, st, scan, at, now, live, f);
      && id in d.sessions
      && d.sessions[id] == if StillToVisit(scan, at, id) then Ticked(c, st.sessions[id], now) else st.sessions[id]
    decreases |scan| - at
  {
    hide Visit, Ticked;
    if at < |scan| {
      var x, d := scan[at], Visit(c, st, scan[at], at, now, live, f);
      RestIsFresh(c, st, scan, at, now, live, f, id);
      if x.id == id {
        VisitMoves(c, st, x, at, now, live, f);
        assert !StillToVisit(scan, at + 1, id);
      } else {
        VisitElsewhere(c, st, x, at, now, live, f, id);
      }
      VisitsMove(c, d, scan, at + 1, now, live, f, id);
    }
  }

  lemma {:induction false} ScanHas(st: State, order: seq<string>, id: string)
    requires id in order && id in st.sessions
    ensures StillToVisit(Scan(st, order), 0, id)
  {
    var front, last := order[..|order| - 1], order[|order| - 1];
    var scan := Scan(st, order);
    if last == id {
      assert scan[|scan| - 1].id == id;
    } else {
      ScanHas(st, front, id);
      var j :| 0 <= j < |Scan(st, front)| && Scan(st, front)[j].id == id;
      assert scan[j].id == id;
    }
  }

  /** One error-free tick that lists the session leaves its clock at NextClock, and nothing else about it changes. */
  lemma TickMoves(c: Config, st: State, order: seq<string>, now: int, live: Listing, f: Fates, id: string)
    requires c.interval > 0 && ErrorFree(f) && Times(order, id) == 1 && !Missing(id, live) && id in st.sessions
    ensures var d := Tick(c, st, order, now, live, f);
      id in d.sessions && d.sessions[id] == Ticked(c, st.sessions[id], now)
  {
    ScanIsFresh(st, order, id);
    TimesZero(order, id);
    ScanHas(st, order, id);
    VisitsMove(c, st, Scan(st, order), 0, now, live, f, id);
  }

  /**
   * One error-free tick on a backlog of n periods: above 600 it bills 600, so that n - 599 are due at the
   * next tick; otherwise it bills them all and leaves the clock within one interval after the present.
   */
  lemma OneTick(c: Config, next: int, now: int)
    requires c.interval > 0 && next <= now
    ensures var n, after := Overdue(c, next, now), Moved(c, next, now);
      && (n > PERIODS_PER_TICK ==> after <= now && Overdue(c, after, now + c.interval) == n - (PERIODS_PER_TICK - 1))
      && (n <= PERIODS_PER_TICK ==> now < after <= now + c.interval && Overdue(c, after, now + c.interval) == 1)
  {
    var n, after := Overdue(c, next, now), Moved(c, next, now);
    Quotient(c.interval, now - next, n);
    TickArithmetic(c.interval, now - next, n);
    Quotient(c.interval, now + c.interval - after, if n > PERIODS_PER_TICK then n - (PERIODS_PER_TICK - 1) else 1);
  }

  /** How many ticks a backlog of n periods takes. */
  function TicksNeeded(n: int): (t: nat)
    ensures t >= 1
  {
    if n <= PERIODS_PER_TICK then 1 else 1 + TicksNeeded(n - (PERIODS_PER_TICK - 1))
  }

  lemma {:induction false} TicksNeededClosed(n: int)
    ensures TicksNeeded(n) == if n <= 1 then 1 else (n + 597) / 599
    decreases n
  {
    if n > PERIODS_PER_TICK { TicksNeededClosed(n - (PERIODS_PER_TICK - 1)); }
  }

  /** The time of the last of `ticks` ticks. */
  function LastTick(c: Config, now: int, ticks: nat): int
    decreases ticks
  {
    if ticks <= 1 then now else LastTick(c, now + c.interval, ticks - 1)
  }

  lemma {:induction false} LastTickTime(c: Config, now: int, ticks: nat)
    requires ticks >= 1
    ensures LastTick(c, now, ticks) == now + c.interval * (ticks - 1)
    decreases ticks
  {
    if ticks > 1 {
      LastTickTime(c, now + c.interval, ticks - 1);
      Distribute(c.interval, ticks - 2, 1);
    }
  }

  /** What OneTick says of a tick, for whatever counts the periods due. */
  ghost predicate WorksOff(tick: (int, int) -> int, due: (int, int) -> int, interval: int) {
    forall clock, now {:trigger tick(clock, now)} | clock <= now :: WorksOffAt(tick, due, interval, clock, now)
  }

  predicate WorksOffAt(tick: (int, int) -> int, due: (int, int) -> int, interval: int, clock: int, now: int) {
    var n, after := due(clock, now), tick(clock, now);
    && (n > PERIODS_PER_TICK ==> after <= now && due(after, now + interval) == n - (PERIODS_PER_TICK - 1))
    && (n <= PERIODS_PER_TICK ==> now < after <= now + interval && due(after, now + interval) == 1)
  }

  lemma {:induction false} Converges(tick: (int, int) -> int, due: (int, int) -> int, c: Config, next: int, now: int,
                                     ticks: nat)
    requires c.interval > 0 && WorksOff(tick, due, c.interval) && next <= now && ticks >= 1
    ensures var after, last := Iterate(tick, c.interval, next, now, ticks), LastTick(c, now, ticks);
      if ticks < TicksNeeded(due(next, now)) then after <= last else last < after <= last + c.interval
    decreases ticks
  {
    var after := tick(next, now);
    assert WorksOffAt(tick, due, c.interval, next, now);
    hide WorksOff;
    if ticks > 1 {
      Converges(tick, due, c, after, now + c.interval, ticks - 1);
    } else {
      assert Iterate(tick, c.interval, after, now + c.interval, 0) == after;
    }
  }

  /** Error-free ticks of the generator, one interval apart, that each scan the sandbox once and list it. */
  ghost predicate CleanTicks(c: Config, events: seq<Event>, id: string, now: int)
    decreases events
  {
    events == [] ||
    (events[0].TickAt? && events[0].now == now && Times(events[0].order, id) == 1 &&
     !Missing(id, events[0].live) && ErrorFree(events[0].fates) && CleanTicks(c, events[1..], id, now + c.interval))
  }

  lemma {:induction false} RunIterates(c: Config, b: Book, events: seq<Event>, id: string, now: int,
                                       tick: (int, int) -> int)
    requires c.interval > 0 && CleanTicks(c, events, id, now) && id in b.st.sessions
    requires forall clock, time {:trigger tick(clock, time)} :: tick(clock, time) == NextClock(c, clock, time)
    ensures var d := Run(c, b, events);
      && id in d.st.sessions
      && d.st.sessions[id].next == Iterate(tick, c.interval, b.st.sessions[id].next, now, |events|)
    decreases events
  {
    if events != [] {
      hide Visit, Visits, AllVisited, Scan, Times, NextClock, Tick, ErrorFree;
      var ev := events[0];
      BookFollowsState(c, b, Scan(b.st, ev.order), 0, ev.now, ev.live, ev.fates);
      TickIsVisits(c, b.st, ev.order, ev.now, ev.live, ev.fates);
      TickMoves(c, b.st, ev.order, ev.now, ev.live, ev.fates, id);
      RunIterates(c, Step(c, b, ev), events[1..], id, now + c.interval, tick);
    }
  }

  lemma TickIsVisits(c: Config, st: State, order: seq<string>, now: int, live: Listing, f: Fates)
    requires c.interval > 0
    ensures Tick(c, st, order, now, live, f) == Visits(c, st, Scan(st, order), 0, now, live, f)
  {
  }

  /**
   * Backlog convergence. From any books, error-free ticks one interval apart work off a session's backlog of n
   * periods in exactly TicksNeeded(n) ticks: after them NextVoucherAt lies within one interval after the last
   * tick, and after any fewer the session is still behind.
   */
  lemma BacklogConverges(c: Config, b: Book, events: seq<Event>, id: string, now: int)
    requires c.interval > 0 && CleanTicks(c, events, id, now) && events != []
    requires id in b.st.sessions && b.st.sessions[id].next <= now
    ensures var d, last := Run(c, b, events), now + c.interval * (|events| - 1);
      && id in d.st.sessions
      && (|events| < TicksNeeded(Overdue(c, b.st.sessions[id].next, now)) ==> d.st.sessions[id].next <= last)
      && (|events| >= TicksNeeded(Overdue(c, b.st.sessions[id].next, now)) ==>
            last < d.st.sessions[id].next <= last + c.interval)
  {
    hide *;
    var tick := (clock, time) => NextClock(c, clock, time);
    var due := (clock, time) => if clock <= time then Overdue(c, clock, time) else 0;
    RunIterates(c, b, events, id, now, tick);
    forall clock, time {:trigger tick(clock, time)} | clock <= time ensures tick(clock, time) == Moved(c, clock, time) {
      NextIsMoved(c, clock, time);
    }
    MovedWorksOff(c, tick, due);
    Converges(tick, due, c, b.st.sessions[id].next, now, |events|);
    LastTickTime(c, now, |events|);
  }

  lemma MovedWorksOff(c: Config, moved: (int, int) -> int, due: (int, int) -> int)
    requires c.interval > 0
    requires forall clock, now {:trigger moved(clock, now)} | clock <= now :: moved(clock, now) == Moved(c, clock, now)
    requires forall clock, now {:trigger due(clock, now)} | clock <= now :: due(clock, now) == Overdue(c, clock, now)
    ensures WorksOff(moved, due, c.interval)
  {
    forall clock, now | clock <= now ensures WorksOffAt(moved, due, c.interval, clock, now)
    {
      OneTick(c, clock, now);
    }
  }

  /** Two days of backlog at a one-minute interval take five ticks. */
  lemma TwoDaysTakeFiveTicks(c: Config, next: int, now: int)
    requires c.interval == 60 && now - next == 2 * 24 * 3600
    ensures TicksNeeded(Overdue(c, next, now)) == 5
  {
    Quotient(60, now - next, 2881);
    TicksNeededClosed(2881);
  }
}
