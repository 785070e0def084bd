/**
What one generator tick does to one session, in plain terms: how far it is billed, which
vouchers that makes, how its absences are counted, and when it ends. And that a session
that has ended, by a stop or as a phantom, is charged no more.
*/
module Ticks {
  import opened Arithmetic
  import opened Sequences
  import opened Wrappers
  import opened Ledger
  import opened LedgerLaws

  // ---------------------------------------------------------------------------
  // The one visit a tick pays a sandbox
  // ---------------------------------------------------------------------------

  /** Nothing that belongs to the sandbox differs. */
  ghost predicate SameFor(st: State, d: State, id: string) {
    && (id in st.sessions <==> id in d.sessions) && (id in st.sessions ==> d.sessions[id] == st.sessions[id])
    && (id in st.skips <==> id in d.skips) && (id in st.skips ==> d.skips[id] == st.skips[id])
    && (id in st.markers <==> id in d.markers)
    && Mine(d.queue, id) == Mine(st.queue, id)
  }

  lemma VisitElsewhereIsNothing(c: Config, st: State, x: Scanned, at: nat, now: int, live: Listing, f: Fates,
                                id: string)
    requires c.interval > 0 && id != x.id
    ensures SameFor(st, Visit(c, st, x, at, now, live, f), id)
  {
    hide Mine, VouchersOf, Billed, RateOf, ClockAfter;
    OthersQueue(c, st, x, at, now, live, f, id);
  }

  lemma OthersQueue(c: Config, st: State, x: Scanned, at: nat, now: int, live: Listing, f: Fates, id: string)
    requires c.interval > 0 && id != x.id
    ensures Mine(Visit(c, st, x, at, now, live, f).queue, id) == Mine(st.queue, id)
  {
    hide *;
    var rate, ws := RateOf(c, x.session), Billed(c, x, at, now, live, f);
    var more := VouchersOf(x.id, x.session.owner, rate, ws);
    VisitQueues(c, st, x, at, now, live, f);
    VouchersAreFor(x.id, x.session.owner, rate, ws);
    MineAppend(st.queue, more, id);
    MineOfOne(more, x.id, id);
    assert Mine(st.queue, id) + [] == Mine(st.queue, id);
  }

  lemma {:induction false} VisitsElsewhereAreNothing(c: Config, st: State, scan: seq<Scanned>, at: nat, now: int,
                                                     live: Listing, f: Fates, id: string)
    requires c.interval > 0 && at <= |scan| && forall i | at <= i < |scan| :: scan[i].id != id
    ensures SameFor(st, Visits(c, st, scan, at, now, live, f), id)
    decreases |scan| - at
  {
    if at < |scan| {
      VisitElsewhereIsNothing(c, st, scan[at], at, now, live, f, id);
      hide Visit;
      VisitsElsewhereAreNothing(c, Visit(c, st, scan[at], at, now, live, f), scan, at + 1, now, live, f, id);
    }
  }

  /** The scan has the session of `id`, as it is, at position `j` and nowhere else. */
  ghost predicate OnlyAt(st: State, scan: seq<Scanned>, j: nat, id: string) {
    && id in st.sessions && j < |scan| && scan[j] == Scanned(id, st.sessions[id])
    && forall i | 0 <= i < |scan| && i != j :: scan[i].id != id
  }

  lemma {:induction false} ScanHas(st: State, order: seq<string>, id: string)
    requires id in st.sessions && Times(order, id) == 1
    ensures exists j: nat :: OnlyAt(st, Scan(st, order), j, id)
  {
    var front, last := order[..|order| - 1], order[|order| - 1];
    var before := Scan(st, front);
    if last == id {
      TimesZero(front, id);
      assert forall i | 0 <= i < |before| :: before[i] in before;
      assert OnlyAt(st, Scan(st, order), |before|, id);
    } else {
      ScanHas(st, front, id);
      var j: nat :| OnlyAt(st, before, j, id);
      assert OnlyAt(st, Scan(st, order), j, id);
    }
  }

  /** A key that is not reported, or has no session, is not in the scan. */
  lemma {:induction false} ScanHasNot(st: State, order: seq<string>, id: string)
    requires id !in st.sessions || id !in order
    ensures forall i | 0 <= i < |Scan(st, order)| :: Scan(st, order)[i].id != id
  {
    assert forall i | 0 <= i < |Scan(st, order)| :: Scan(st, order)[i] in Scan(st, order);
  }

  /** For the sandbox, the tick is its one visit. */
  lemma {:induction false} TickIsOneVisit(c: Config, st: State, scan: seq<Scanned>, at: nat, j: nat, now: int,
                                          live: Listing, f: Fates, id: string)
    requires c.interval > 0 && at <= j && OnlyAt(st, scan, j, id)
    ensures exists before: State :: SameFor(st, before, id) &&
              SameFor(Visit(c, before, scan[j], j, now, live, f), Visits(c, st, scan, at, now, live, f), id)
    decreases j - at
  {
    if at == j {
      VisitsElsewhereAreNothing(c, Visit(c, st, scan[j], j, now, live, f), scan, j + 1, now, live, f, id);
      assert SameFor(st, st, id);
    } else {
      var next := Visit(c, st, scan[at], at, now, live, f);
      VisitElsewhereIsNothing(c, st, scan[at], at, now, live, f, id);
      hide Visit;
      TickIsOneVisit(c, next, scan, at + 1, j, now, live, f, id);
      var before: State :| SameFor(next, before, id) &&
        SameFor(Visit(c, before, scan[j], j, now, live, f), Visits(c, next, scan, at + 1, now, live, f), id);
      assert SameFor(st, before, id);
    }
  }

  // ---------------------------------------------------------------------------
  // Absences
  // ---------------------------------------------------------------------------

  /**
   * A due session that a successful listing lacks is not billed; the absence is counted, and from the tenth in a
   * row on it is looked up. If that says gone, the count ends, and so does the session if its deletion succeeds, with
   * its marker if that is deleted too.
   */
  lemma AbsentTick(c: Config, st: State, order: seq<string>, now: int, live: Listing, f: Fates, id: string)
    returns (j: nat)
    requires c.interval > 0 && id in st.sessions && Times(order, id) == 1
    requires st.sessions[id].next <= now && live.Some? && id !in live.value
    ensures OnlyAt(st, Scan(st, order), j, id)
    ensures var d := Tick(c, st, order, now, live, f);
      var n := (if id in st.skips then st.skips[id] else 0) + 1;
      var gone := n >= 10 && f.gone(j);
      && Mine(d.queue, id) == Mine(st.queue, id)
      && (id in d.sessions <==> !(gone && f.deleted(j))) && (id in d.sessions ==> d.sessions[id] == st.sessions[id])
      && (id in d.skips <==> !gone) && (id in d.skips ==> d.skips[id] == n)
      && (id in d.markers <==> id in st.markers && !(gone && f.deleted(j) && f.unmarked(j)))
  {
    ScanHas(st, order, id);
    j :| OnlyAt(st, Scan(st, order), j, id);
    TickIsOneVisit(c, st, Scan(st, order), 0, j, now, live, f, id);
    hide Scan, Visits, Mine;
  }

  /** A tick that does not report the sandbox, or on which it is not due, leaves all of it alone. */
  lemma IdleTick(c: Config, st: State, order: seq<string>, now: int, live: Listing, f: Fates, id: string)
    requires c.interval > 0 && Times(order, id) <= 1
    requires id !in order || id !in st.sessions || now < st.sessions[id].next
    ensures SameFor(st, Tick(c, st, order, now, live, f), id)
  {
    TimesZero(order, id);
    if id !in order || id !in st.sessions {
      ScanHasNot(st, order, id);
      VisitsElsewhereAreNothing(c, st, Scan(st, order), 0, now, live, f, id);
    } else {
      ScanHas(st, order, id);
      var j: nat :| OnlyAt(st, Scan(st, order), j, id);
      TickIsOneVisit(c, st, Scan(st, order), 0, j, now, live, f, id);
      hide Scan, Visits, Mine;
    }
  }

  /** Nothing but absences befalls the sandbox, whose session is due from `next` on. */
  predicate OnlyAbsent(ev: Event, id: string, next: int) {
    match ev
    case Create(created, _, _, _, _, _) => created != id
    case Start(_, _, _, _, _, _) => true
    case Stop(stopped, deleted) => stopped != id || !deleted
    case TickAt(order, now, live, _) => Times(order, id) <= 1 && (AbsentAt(ev, id, next) || id !in order || now < next)
  }

  /** A tick reports the sandbox's session, which is due, and its listing succeeds without the sandbox. */
  predicate AbsentAt(ev: Event, id: string, next: int) {
    ev.TickAt? && Times(ev.order, id) == 1 && next <= ev.now && ev.live.Some? && id !in ev.live.value
  }

  function Absences(events: seq<Event>, id: string, next: int): nat {
    if events == [] then 0 else (if AbsentAt(events[0], id, next) then 1 else 0) + Absences(events[1..], id, next)
  }

  lemma AbsentStep(c: Config, b: Book, ev: Event, id: string)
    requires c.interval > 0 && id in b.st.sessions && OnlyAbsent(ev, id, b.st.sessions[id].next)
    requires (if id in b.st.skips then b.st.skips[id] else 0) + 1 < 10
    ensures var d, absent := Step(c, b, ev).st, AbsentAt(ev, id, b.st.sessions[id].next);
      && id in d.sessions && d.sessions[id] == b.st.sessions[id] && Mine(d.queue, id) == Mine(b.st.queue, id)
      && (id in d.skips <==> id in b.st.skips || absent)
      && (id in d.skips ==> d.skips[id] == (if id in b.st.skips then b.st.skips[id] else 0) + if absent then 1 else 0)
  {
    var d := Step(c, b, ev);
    match ev {
      case TickAt(order, now, live, f) =>
        BookFollowsState(c, b, Scan(b.st, order), 0, now, live, f);
        if AbsentAt(ev, id, b.st.sessions[id].next) {
          var j := AbsentTick(c, b.st, order, now, live, f, id);
        } else {
          IdleTick(c, b.st, order, now, live, f, id);
        }
        hide Scan, Visits, AllVisited, Mine, Times;
      case Stop(_, _) =>
      case Create(_, _, _, _, _, _) => OthersCharge(c, b, ev, id);
      case Start(_, _, _, _, _, _) => if ev.id != id { OthersCharge(c, b, ev, id); }
    }
  }

  /** Another sandbox's create or start queues nothing for this one. */
  lemma OthersCharge(c: Config, b: Book, ev: Event, id: string)
    requires (ev.Create? || ev.Start?) && ev.id != id && c.interval > 0
    ensures SameFor(b.st, Step(c, b, ev).st, id)
  {
    hide ComputePrice, Mine;
    var first := FirstPeriod(c, ev.id, ev.owner, ev.cpu, ev.memGB, ev.now, ev.hook);
    var more := if ev.Create? then Queued(c, ev) else if Opens(b.st, ev.id, ev.hook) then first else [];
    ChargeIsFor(ev.id, ev.owner, ComputePrice(c, ev.cpu, ev.memGB), ev.now, ev.now + c.interval);
    hide ChargeFor;
    assert Step(c, b, ev).st.queue == b.st.queue + more;
    MineAppend(b.st.queue, more, id);
    MineOfOne(more, ev.id, id);
    assert Mine(b.st.queue, id) + [] == Mine(b.st.queue, id);
  }

  /**
   * Over any run, whatever happens to other sandboxes: while nothing but absences befalls a session and they are
   * fewer than ten, it stands as it was, is charged nothing, and its count is their number.
   */
  lemma {:induction false} AbsencesAreCounted(c: Config, b: Book, events: seq<Event>, id: string)
    requires c.interval > 0 && id in b.st.sessions
    requires forall ev | ev in events :: OnlyAbsent(ev, id, b.st.sessions[id].next)
    requires (if id in b.st.skips then b.st.skips[id] else 0) + Absences(events, id, b.st.sessions[id].next) < 10
    ensures var d, n := Run(c, b, events).st, Absences(events, id, b.st.sessions[id].next);
      && id in d.sessions && d.sessions[id] == b.st.sessions[id] && Mine(d.queue, id) == Mine(b.st.queue, id)
      && (id in d.skips <==> id in b.st.skips || n > 0)
      && (id in d.skips ==> d.skips[id] == (if id in b.st.skips then b.st.skips[id] else 0) + n)
    decreases events
  {
    if events != [] {
      if (if id in b.st.skips then b.st.skips[id] else 0) + 1 < 10 {
        AbsentStep(c, b, events[0], id);
      } else {
        NotAbsentStep(c, b, events[0], id);
      }
      hide Step, OnlyAbsent, AbsentAt, Mine;
      AbsencesAreCounted(c, Step(c, b, events[0]), events[1..], id);
    }
  }

  lemma NotAbsentStep(c: Config, b: Book, ev: Event, id: string)
    requires c.interval > 0 && id in b.st.sessions && OnlyAbsent(ev, id, b.st.sessions[id].next)
    requires !AbsentAt(ev, id, b.st.sessions[id].next)
    ensures SameFor(b.st, Step(c, b, ev).st, id)
  {
    match ev {
      case TickAt(order, now, live, f) =>
        BookFollowsState(c, b, Scan(b.st, order), 0, now, live, f);
        IdleTick(c, b.st, order, now, live, f, id);
      case Stop(_, _) =>
      case Create(_, _, _, _, _, _) => OthersCharge(c, b, ev, id);
      case Start(_, _, _, _, _, _) => if ev.id != id { OthersCharge(c, b, ev, id); }
    }
  }

  /**
   * Phantoms do close: with nine absences counted, the tenth ends the session if and only if the lookup of that id
   * says it is gone and the deletion succeeds.
   */
  lemma PhantomClosesAtTheTenth(c: Config, b: Book, events: seq<Event>, tick: Event, id: string) returns (j: nat)
    requires c.interval > 0 && id in b.st.sessions && id !in b.st.skips
    requires forall ev | ev in events :: OnlyAbsent(ev, id, b.st.sessions[id].next)
    requires Absences(events, id, b.st.sessions[id].next) == 9 && AbsentAt(tick, id, b.st.sessions[id].next)
    ensures var before, d := Run(c, b, events), Step(c, Run(c, b, events), tick);
      && OnlyAt(before.st, Scan(before.st, tick.order), j, id)
      && Mine(d.st.queue, id) == Mine(b.st.queue, id)
      && (id !in d.st.sessions <==> tick.fates.gone(j) && tick.fates.deleted(j))
      && (!tick.fates.gone(j) ==> id in d.st.skips && d.st.skips[id] == 10)
  {
    AbsencesAreCounted(c, b, events, id);
    var before := Run(c, b, events);
    BookFollowsState(c, before, Scan(before.st, tick.order), 0, tick.now, tick.live, tick.fates);
    j := AbsentTick(c, before.st, tick.order, tick.now, tick.live, tick.fates, id);
  }

  // ---------------------------------------------------------------------------
  // What a due session is billed
  // ---------------------------------------------------------------------------

  /** Push and session write of a window both answer; a window that costs nothing needs no push. */
  predicate Goes(rate: int, at: nat, k: nat, f: Fates) {
    (rate == 0 || f.pushed(at, k).Answered?) && f.written(at, k).Answered?
  }

  /** There is a voucher `k` of the tick's ten, with `left` periods still overdue. */
  predicate Room(k: nat, left: int) {
    k < 10 && left > 0
  }

  /** The first window that does not go through is billed all the same, unless its push is refused. */
  predicate Overhangs(rate: int, k: nat, left: int, at: nat, f: Fates) {
    Room(k, left) && (rate == 0 || !f.pushed(at, k).Refused?)
  }

  /** And the clock knows of it only when the push answered and just the reply to the write was lost. */
  predicate Recorded(rate: int, k: nat, left: int, at: nat, f: Fates) {
    Room(k, left) && (rate == 0 || f.pushed(at, k).Answered?) && f.written(at, k).Lost?
  }

  lemma ChunkIsSixty(n: int)
    ensures Chunk(n) == Min(60, n)
  {
  }

  /** Where the first `i` vouchers for `n` periods end. */
  function EndOf(c: Config, next: int, n: int, i: int): int {
    next + c.interval * Min(60 * i, n)
  }

  lemma EndLater(c: Config, next: int, n: int, i: int)
    requires i >= 0 && n >= 0
    ensures EndOf(c, EndOf(c, next, n, 1), n - Min(60, n), i) == EndOf(c, next, n, i + 1)
  {
    Distribute(c.interval, Min(60, n), Min(60 * i, n - Min(60, n)));
  }

  lemma EndOfNone(c: Config, next: int, n: int)
    requires n >= 0
    ensures EndOf(c, next, n, 0) == next
  {
  }

  lemma CatchUpStops(c: Config, rate: int, next: int, n: int, k: nat, at: nat, f: Fates)
    requires n >= 0 && (Room(k, n) ==> !Goes(rate, at, k, f))
    ensures var ws := CatchUp(c, rate, next, n, k, at, f);
      && ws == (if Overhangs(rate, k, n, at, f) then [Window(next, EndOf(c, next, n, 1), Recorded(rate, k, n, at, f))]
                else [])
      && ClockAfter(next, ws) == if Recorded(rate, k, n, at, f) then EndOf(c, next, n, 1) else next
  {
    ChunkIsSixty(n);
    hide Chunk;
    var ws := CatchUp(c, rate, next, n, k, at, f);
    assert ws != [] ==> ws[..0] == [];
  }

  lemma CatchUpGoesOn(c: Config, rate: int, next: int, n: int, k: nat, at: nat, f: Fates)
    requires Room(k, n) && Goes(rate, at, k, f)
    ensures CatchUp(c, rate, next, n, k, at, f) ==
            [Window(next, EndOf(c, next, n, 1), true)] +
            CatchUp(c, rate, EndOf(c, next, n, 1), n - Min(60, n), k + 1, at, f)
  {
    ChunkIsSixty(n);
    hide Chunk;
  }

  /**
   * The windows of `n` overdue periods, of which `m` went through: they follow each other in steps of sixty periods,
   * one overhangs or not, and the clock ends behind the last one it knows of.
   */
  ghost predicate WindowsAre(c: Config, next: int, n: int, ws: seq<Window>, m: nat, overhangs: bool, recorded: bool) {
    && |ws| == m + (if overhangs then 1 else 0)
    && (forall i | 0 <= i < |ws| :: ws[i].start == EndOf(c, next, n, i) && ws[i].end == EndOf(c, next, n, i + 1))
    && ClockAfter(next, ws) == EndOf(c, next, n, m + if recorded then 1 else 0)
  }

  lemma NoneGoes(c: Config, rate: int, next: int, n: int, k: nat, at: nat, f: Fates)
    requires n >= 0 && (Room(k, n) ==> !Goes(rate, at, k, f))
    ensures WindowsAre(c, next, n, CatchUp(c, rate, next, n, k, at, f), 0, Overhangs(rate, k, n, at, f),
                       Recorded(rate, k, n, at, f))
  {
    EndOfNone(c, next, n);
    CatchUpStops(c, rate, next, n, k, at, f);
    hide EndOf, Goes, CatchUp, ClockAfter;
  }

  lemma LastGoes(c: Config, rate: int, next: int, n: int, k: nat, at: nat, f: Fates)
    requires n <= 60 && Room(k, n) && Goes(rate, at, k, f)
    ensures WindowsAre(c, next, n, CatchUp(c, rate, next, n, k, at, f), 1, false, false)
  {
    CatchUpGoesOn(c, rate, next, n, k, at, f);
    CatchUpStops(c, rate, EndOf(c, next, n, 1), 0, k + 1, at, f);
    EndOfNone(c, next, n);
    hide EndOf, CatchUp;
  }

  lemma OneMoreGoes(c: Config, next: int, n: int, rest: seq<Window>, m: nat, overhangs: bool, recorded: bool)
    requires n > 60 && WindowsAre(c, EndOf(c, next, n, 1), n - 60, rest, m, overhangs, recorded)
    ensures WindowsAre(c, next, n, [Window(next, EndOf(c, next, n, 1), true)] + rest, m + 1, overhangs, recorded)
  {
    var first := Window(next, EndOf(c, next, n, 1), true);
    var ws := [first] + rest;
    ClockAfterCons(next, first, rest);
    EndOfNone(c, next, n);
    EndLater(c, next, n, m);
    EndLater(c, next, n, m + 1);
    hide EndOf, ClockAfter;
    forall i | 1 <= i < |ws| ensures ws[i].start == EndOf(c, next, n, i) && ws[i].end == EndOf(c, next, n, i + 1) {
      assert ws[i] == rest[i - 1];
      EndLater(c, next, n, i - 1);
      EndLater(c, next, n, i);
    }
  }

  /** The windows of a catch-up from voucher `k` on, of which the first `m` go through and the next does not. */
  lemma {:induction false} CatchUpWindows(c: Config, rate: int, next: int, n: int, k: nat, at: nat, f: Fates, m: nat)
    requires n >= 0 && (m > 0 ==> Room(k + m - 1, n - 60 * (m - 1)))
    requires forall i | k <= i < k + m :: Goes(rate, at, i, f)
    requires Room(k + m, n - 60 * m) ==> !Goes(rate, at, k + m, f)
    ensures WindowsAre(c, next, n, CatchUp(c, rate, next, n, k, at, f), m, Overhangs(rate, k + m, n - 60 * m, at, f),
                       Recorded(rate, k + m, n - 60 * m, at, f))
    decreases m
  {
    hide WindowsAre, CatchUp, EndOf, Goes;
    if m == 0 {
      NoneGoes(c, rate, next, n, k, at, f);
    } else if n <= 60 {
      LastGoes(c, rate, next, n, k, at, f);
    } else {
      CatchUpGoesOn(c, rate, next, n, k, at, f);
      CatchUpWindows(c, rate, EndOf(c, next, n, 1), n - 60, k + 1, at, f, m - 1);
      OneMoreGoes(c, next, n, CatchUp(c, rate, EndOf(c, next, n, 1), n - 60, k + 1, at, f), m - 1,
                  Overhangs(rate, k + m, n - 60 * m, at, f), Recorded(rate, k + m, n - 60 * m, at, f));
    }
  }

  lemma {:induction false} OneVoucherEach(id: string, owner: string, rate: int, ws: seq<Window>)
    requires rate > 0 && forall i | 0 <= i < |ws| :: ws[i].start < ws[i].end
    ensures var vs := VouchersOf(id, owner, rate, ws);
      && |vs| == |ws|
      && forall i | 0 <= i < |vs| ::
           vs[i] == Voucher(id, owner, rate * (ws[i].end - ws[i].start), ws[i].start, ws[i].end)
  {
    if ws != [] {
      OneVoucherEach(id, owner, rate, ws[..|ws| - 1]);
      Positive(rate, ws[|ws| - 1].end - ws[|ws| - 1].start);
    }
  }

  lemma {:induction false} NoVoucherForNothing(id: string, owner: string, ws: seq<Window>)
    ensures VouchersOf(id, owner, 0, ws) == []
  {
    if ws != [] { NoVoucherForNothing(id, owner, ws[..|ws| - 1]); }
  }

  lemma BilledIsCatchUp(c: Config, x: Scanned, at: nat, now: int, live: Listing, f: Fates)
    requires c.interval > 0 && x.session.next <= now && (live.None? || x.id in live.value)
    ensures Billed(c, x, at, now, live, f) ==
            CatchUp(c, RateOf(c, x.session), x.session.next, (now - x.session.next) / c.interval + 1, 0, at, f)
  {
    hide CatchUp, RateOf;
  }

  /** One visit that bills. */
  lemma VisitBills(c: Config, st: State, x: Scanned, at: nat, now: int, live: Listing, f: Fates)
    requires c.interval > 0 && x.id in st.sessions && st.sessions[x.id] == x.session
    requires x.session.next <= now && (live.None? || x.id in live.value)
    ensures var d, ws := Visit(c, st, x, at, now, live, f), Billed(c, x, at, now, live, f);
      && Mine(d.queue, x.id) == Mine(st.queue, x.id) + VouchersOf(x.id, x.session.owner, RateOf(c, x.session), ws)
      && x.id in d.sessions && d.sessions[x.id] == x.session.(next := ClockAfter(x.session.next, ws))
      && x.id !in d.skips && d.markers == st.markers
  {
    hide Mine, VouchersOf, CatchUp, ClockAfter, Billed, RateOf;
    var rate := RateOf(c, x.session);
    var ws := Billed(c, x, at, now, live, f);
    VisitQueues(c, st, x, at, now, live, f);
    VouchersAreFor(x.id, x.session.owner, rate, ws);
    MineAppend(st.queue, VouchersOf(x.id, x.session.owner, rate, ws), x.id);
    MineOfOne(VouchersOf(x.id, x.session.owner, rate, ws), x.id, x.id);
    NotAdvanced(c, x, at, now, live, f);
  }

  /** Windows that follow each other in steps of sixty periods have something in them. */
  lemma WindowsAreNotEmpty(c: Config, next: int, n: int, i: nat)
    requires c.interval > 0 && 60 * i < n
    ensures EndOf(c, next, n, i) < EndOf(c, next, n, i + 1)
  {
    Distribute(c.interval, 60 * i, Min(60 * (i + 1), n) - 60 * i);
    Positive(c.interval, Min(60 * (i + 1), n) - 60 * i);
  }

  /** One voucher follows the other, each for the next sixty of the `n` periods, the last for what is left. */
  ghost predicate BilledInSteps(c: Config, id: string, s: Session, n: int, rate: int, vs: seq<Voucher>) {
    forall i | 0 <= i < |vs| ::
      && vs[i].sandbox == id && vs[i].owner == s.owner
      && vs[i].start == EndOf(c, s.next, n, i) && vs[i].end == EndOf(c, s.next, n, i + 1)
      && vs[i].fee == rate * (vs[i].end - vs[i].start)
  }

  /**
   * A tick bills a due session the `n` periods that have begun, sixty to a voucher and at most ten vouchers, each from
   * where the one before ended. It stops at the first, number `m`, whose push or session write does not answer; that
   * one is queued too unless its push is refused, and the session's clock passes it only when just the reply to the
   * write was lost. A session that costs nothing gets no vouchers, but its clock moves alike.
   */
  lemma BilledTick(c: Config, st: State, order: seq<string>, now: int, live: Listing, f: Fates, id: string, j: nat,
                   m: nat)
    requires c.interval > 0 && OnlyAt(st, Scan(st, order), j, id)
    requires st.sessions[id].next <= now && (live.None? || id in live.value)
    requires var s := st.sessions[id];
      var n := (now - s.next) / c.interval + 1;
      var rate := if s.price.Some? && s.price.value > 0 then s.price.value else c.flat;
      && (m > 0 ==> m <= 10 && 60 * (m - 1) < n)
      && (forall k | 0 <= k < m :: Goes(rate, j, k, f)) && (m < 10 && 60 * m < n ==> !Goes(rate, j, m, f))
    ensures var s, d := st.sessions[id], Tick(c, st, order, now, live, f);
      var n := (now - s.next) / c.interval + 1;
      var rate := if s.price.Some? && s.price.value > 0 then s.price.value else c.flat;
      var fits := m < 10 && 60 * m < n;
      var more := if fits && (rate == 0 || !f.pushed(j, m).Refused?) then 1 else 0;
      var known := if fits && (rate == 0 || f.pushed(j, m).Answered?) && f.written(j, m).Lost? then 1 else 0;
      && Mine(st.queue, id) <= Mine(d.queue, id)
      && (var billed := Mine(d.queue, id)[|Mine(st.queue, id)|..];
          && |billed| == (if rate == 0 then 0 else m + more)
          && BilledInSteps(c, id, s, n, rate, billed))
      && id in d.sessions && d.sessions[id] == s.(next := EndOf(c, s.next, n, m + known))
      && id !in d.skips && (id in d.markers <==> id in st.markers)
  {
    hide Visits, Visit, Scan, CatchUp, Mine, ClockAfter, Goes, VouchersOf, WindowsAre, EndOf, Billed;
    var s, scan := st.sessions[id], Scan(st, order);
    var n, rate := (now - s.next) / c.interval + 1, RateOf(c, s);
    var ws := Billed(c, scan[j], j, now, live, f);
    assert n >= 1 by { OverdueEnds(c, s.next, now); }
    TickIsOneVisit(c, st, scan, 0, j, now, live, f, id);
    var before: State :| SameFor(st, before, id) &&
      SameFor(Visit(c, before, scan[j], j, now, live, f), Visits(c, st, scan, 0, now, live, f), id);
    VisitBills(c, before, scan[j], j, now, live, f);
    BilledIsCatchUp(c, scan[j], j, now, live, f);
    CatchUpWindows(c, rate, s.next, n, 0, j, f, m);
    hide BilledInSteps;
    VouchersFollow(c, id, s, n, ws, rate, m, Overhangs(rate, m, n - 60 * m, j, f), Recorded(rate, m, n - 60 * m, j, f));
  }

  /** The vouchers of such windows. */
  lemma VouchersFollow(c: Config, id: string, s: Session, n: int, ws: seq<Window>, rate: int, m: nat, overhangs: bool,
                       recorded: bool)
    requires c.interval > 0 && rate >= 0 && WindowsAre(c, s.next, n, ws, m, overhangs, recorded)
    requires (m > 0 ==> 60 * (m - 1) < n) && (overhangs ==> 60 * m < n)
    ensures var vs := VouchersOf(id, s.owner, rate, ws);
      && |vs| == (if rate == 0 then 0 else |ws|)
      && BilledInSteps(c, id, s, n, rate, vs)
      && |ws| == m + (if overhangs then 1 else 0)
      && ClockAfter(s.next, ws) == EndOf(c, s.next, n, m + if recorded then 1 else 0)
  {
    hide EndOf, ClockAfter, VouchersOf;
    forall i | 0 <= i < |ws| ensures ws[i].start < ws[i].end {
      WindowsAreNotEmpty(c, s.next, n, i);
    }
    if rate == 0 {
      NoVoucherForNothing(id, s.owner, ws);
    } else {
      OneVoucherEach(id, s.owner, rate, ws);
    }
  }

  /**
   * A session that a stop has taken away between the scan and its visit is billed by the scan's copy, and the write
   * of its clock brings back a hash that has nothing else in it.
   */
  lemma VanishedSessionLeavesAClock(c: Config, st: State, x: Scanned, at: nat, now: int, live: Listing, f: Fates)
    requires c.interval > 0 && x.id !in st.sessions
    requires x.session.next <= now && (live.None? || x.id in live.value) && (forall k: nat :: Goes(1, at, k, f))
    ensures var d, n := Visit(c, st, x, at, now, live, f), (now - x.session.next) / c.interval + 1;
      x.id in d.sessions && d.sessions[x.id] == Session("", EndOf(c, x.session.next, n, Min(10, (n + 59) / 60)), None)
  {
    hide VouchersOf, ClockAfter, CatchUp, RateOf, EndOf;
    var n, rate := (now - x.session.next) / c.interval + 1, RateOf(c, x.session);
    var m := Min(10, (n + 59) / 60);
    var ws := Billed(c, x, at, now, live, f);
    assert n >= 1 by { OverdueEnds(c, x.session.next, now); }
    BilledIsCatchUp(c, x, at, now, live, f);
    forall k | 0 <= k < m + 1 ensures Goes(rate, at, k, f) {
      assert Goes(1, at, k, f);
    }
    hide Billed, Goes;
    CatchUpWindows(c, rate, x.session.next, n, 0, at, f, m);
    assert Advances(ws) by { FirstIsRecorded(c, rate, x.session.next, n, at, f); }
    hide Advances;
  }

  lemma FirstIsRecorded(c: Config, rate: int, next: int, n: int, at: nat, f: Fates)
    requires n >= 1 && Goes(rate, at, 0, f)
    ensures Advances(CatchUp(c, rate, next, n, 0, at, f))
  {
    CatchUpGoesOn(c, rate, next, n, 0, at, f);
  }

  // ---------------------------------------------------------------------------
  // The end of a session
  // ---------------------------------------------------------------------------

  /** Without a session nothing is charged, until the sandbox is created or started again. */
  lemma {:induction false} NoSessionNoCharge(c: Config, b: Book, events: seq<Event>, id: string)
    requires c.interval > 0 && id !in b.st.sessions
    requires forall ev | ev in events :: (ev.Create? || ev.Start?) ==> ev.id != id
    ensures var d := Run(c, b, events).st; id !in d.sessions && Mine(d.queue, id) == Mine(b.st.queue, id)
    decreases events
  {
    if events != [] {
      var ev := events[0];
      match ev {
        case TickAt(order, now, live, f) =>
          BookFollowsState(c, b, Scan(b.st, order), 0, now, live, f);
          ScanHasNot(b.st, order, id);
          VisitsElsewhereAreNothing(c, b.st, Scan(b.st, order), 0, now, live, f, id);
        case Stop(_, _) =>
        case Create(_, _, _, _, _, _) => OthersCharge(c, b, ev, id);
        case Start(_, _, _, _, _, _) => OthersCharge(c, b, ev, id);
      }
      hide Visits, Scan, AllVisited, Mine;
      NoSessionNoCharge(c, Step(c, b, ev), events[1..], id);
    }
  }

  /**
   * Stopping ends billing: the session goes, every other stays as it was, and in no run without another create or
   * start of the sandbox is anything more charged to it. A stop whose deletion fails changes nothing.
   */
  lemma StopEndsBilling(c: Config, b: Book, id: string, events: seq<Event>)
    requires c.interval > 0 && forall ev | ev in events :: (ev.Create? || ev.Start?) ==> ev.id != id
    ensures var d := Step(c, b, Stop(id, true)).st;
      && d == State(map other | other in b.st.sessions && other != id :: b.st.sessions[other],
                    b.st.queue, b.st.skips, b.st.markers)
      && var later := Run(c, Step(c, b, Stop(id, true)), events).st;
         id !in later.sessions && Mine(later.queue, id) == Mine(b.st.queue, id)
    ensures Step(c, b, Stop(id, false)).st == b.st
  {
    NoSessionNoCharge(c, Step(c, b, Stop(id, true)), events, id);
  }
}
