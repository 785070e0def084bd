/**
The promises of the billing ledger, over every run that starts from an empty ledger.
*/
module LedgerTheorems {
  import opened Arithmetic
  import opened Sequences
  import opened Wrappers
  import opened Ledger
  import opened LedgerLaws

  // ---------------------------------------------------------------------------
  // Windows cover the elapsed time
  // ---------------------------------------------------------------------------

  /** How often the second `t` is billed. */
  function Cover(ws: seq<Window>, t: int): nat {
    if ws == [] then 0
    else Cover(ws[..|ws| - 1], t) + if ws[|ws| - 1].start <= t < ws[|ws| - 1].end then 1 else 0
  }

  lemma {:induction false} CoverCounts(open: int, ws: seq<Window>, t: int)
    requires Chained(open, ws)
    ensures open <= ClockAfter(open, ws)
    ensures var due := if open <= t < ClockAfter(open, ws) then 1 else 0;
      due <= Cover(ws, t) <= due + Unrecorded(ws)
    ensures t < open ==> Cover(ws, t) == 0
  {
    if ws != [] {
      var before, last := ws[..|ws| - 1], ws[|ws| - 1];
      ChainedPrefix(open, ws);
      CoverCounts(open, before, t);
    }
  }

  /**
   * How many events of a run billed sandbox `id` without its clock knowing: a push that lost its reply, in a tick
   * or a create, or a session write of a tick that failed.
   */
  ghost function Strayed(c: Config, b: Book, events: seq<Event>, id: string): nat
    requires c.interval > 0
    decreases events
  {
    if events == [] then 0
    else (if MayStray(b.st, events[0], id) then 1 else 0) + Strayed(c, Step(c, b, events[0]), events[1..], id)
  }

  ghost predicate MayStray(st: State, ev: Event, id: string) {
    match ev
    case TickAt(order, _, _, f) =>
      exists at: nat, k: nat :: at < |Scan(st, order)| && Scan(st, order)[at].id == id && Stray(f, at, k)
    case Create(created, _, _, _, _, hook) => created == id && hook.periodPushed.Lost?
    case _ => false
  }

  predicate Stray(f: Fates, at: nat, k: nat) {
    f.pushed(at, k).Lost? || f.written(at, k).Refused?
  }

  function ExtraWindows(b: Book, id: string): nat {
    if id in b.eras then Unrecorded(b.eras[id].wins) else 0
  }

  lemma BilledExtra(c: Config, x: Scanned, at: nat, now: int, live: Listing, f: Fates)
    requires c.interval > 0
    ensures Unrecorded(Billed(c, x, at, now, live, f)) <= if exists k: nat :: Stray(f, at, k) then 1 else 0
  {
    var ws := Billed(c, x, at, now, live, f);
    if ws != [] {
      OneExtraPerStray(c, RateOf(c, x.session), x.session.next, Overdue(c, x.session.next, now), 0, at, f);
      if Unrecorded(ws) > 0 { assert Stray(f, at, 0 + |ws| - 1); }
    }
  }

  lemma {:induction false} VisitExtra(c: Config, b: Book, x: Scanned, at: nat, now: int, live: Listing, f: Fates,
                                      id: string)
    requires c.interval > 0
    ensures ExtraWindows(Visited(c, b, x, at, now, live, f), id) <=
            ExtraWindows(b, id) + if x.id == id && exists k: nat :: Stray(f, at, k) then 1 else 0
  {
    if id == x.id && id in b.eras {
      UnrecordedAppend(b.eras[id].wins, Billed(c, x, at, now, live, f));
      BilledExtra(c, x, at, now, live, f);
    }
  }

  lemma {:induction false} TickExtra(c: Config, b: Book, scan: seq<Scanned>, at: nat, now: int, live: Listing,
                                     f: Fates, id: string)
    requires c.interval > 0 && at <= |scan|
    requires forall i, j | at <= i < |scan| && at <= j < |scan| && scan[i].id == id && scan[j].id == id :: i == j
    ensures ExtraWindows(AllVisited(c, b, scan, at, now, live, f), id) <= ExtraWindows(b, id) +
            if exists j: nat, k: nat :: at <= j < |scan| && scan[j].id == id && Stray(f, j, k) then 1 else 0
    decreases |scan| - at
  {
    if at < |scan| {
      VisitExtra(c, b, scan[at], at, now, live, f, id);
      TickExtra(c, Visited(c, b, scan[at], at, now, live, f), scan, at + 1, now, live, f, id);
    }
  }

  lemma {:induction false} RunExtra(c: Config, b: Book, events: seq<Event>, id: string)
    requires c.interval > 0 && OrderlyRun(c, b, events, id)
    ensures ExtraWindows(Run(c, b, events), id) <= ExtraWindows(b, id) + Strayed(c, b, events, id)
    decreases events
  {
    if events != [] {
      var ev := events[0];
      if ev.TickAt? {
        ScanIsFresh(b.st, ev.order, id);
        TickExtra(c, b, Scan(b.st, ev.order), 0, ev.now, ev.live, ev.fates, id);
      } else {
        assert Unrecorded([]) == 0;
        assert forall w: Window :: [w][..0] == [];
      }
      RunExtra(c, Step(c, b, ev), events[1..], id);
    }
  }

  /** How often the second `t` is charged by the vouchers. */
  function Charged(vs: seq<Voucher>, t: int): nat {
    if vs == [] then 0
    else Charged(vs[..|vs| - 1], t) + if vs[|vs| - 1].start <= t < vs[|vs| - 1].end then 1 else 0
  }

  lemma {:induction false} ChargedAsCovered(id: string, owner: string, rate: int, open: int, ws: seq<Window>, t: int)
    requires Chained(open, ws) && rate > 0
    ensures Charged(VouchersOf(id, owner, rate, ws), t) == Cover(ws, t)
  {
    if ws != [] {
      var before, last := VouchersOf(id, owner, rate, ws[..|ws| - 1]), ws[|ws| - 1];
      ChainedPrefix(open, ws);
      ChargedAsCovered(id, owner, rate, open, ws[..|ws| - 1], t);
      Positive(rate, last.end - last.start);
      var charge := ChargeFor(id, owner, rate, last.start, last.end);
      assert (before + charge)[..|before|] == before;
    }
  }

  /**
   * Voucher windows. In every run, for every open session and every second: a second between the opening
   * and NextVoucherAt is billed at least once and at most once more than the run strayed; one
   * before the opening is never billed; and no period that starts after the present is billed at all.
   * At a positive rate the queued vouchers say the same as the windows.
   */
  lemma EveryElapsedPeriodIsBilled(c: Config, events: seq<Event>, id: string, t: int)
    requires ValidConfig(c) && OrderlyRun(c, EMPTY, events, id)
    requires id in Run(c, EMPTY, events).st.sessions
    ensures var b := Run(c, EMPTY, events);
      && id in b.eras
      && var e := b.eras[id];
         && e.open <= b.st.sessions[id].next
         && (e.open <= t < b.st.sessions[id].next ==> 1 <= Cover(e.wins, t) <= 1 + Strayed(c, EMPTY, events, id))
         && (t < e.open ==> Cover(e.wins, t) == 0)
         && (t >= b.st.sessions[id].next ==> Cover(e.wins, t) <= Strayed(c, EMPTY, events, id))
         && (forall w | w in e.wins :: w.end - c.interval <= b.clock)
         && e.mark <= |b.st.queue|
         && (e.rate > 0 ==> Charged(Mine(b.st.queue[e.mark..], id), t) == Cover(e.wins, t))
  {
    RunKeeps(c, EMPTY, events, id);
    RunExtra(c, EMPTY, events, id);
    var b := Run(c, EMPTY, events);
    assert EraLaw(c, b, id);
    var e := b.eras[id];
    CoverCounts(e.open, e.wins, t);
    if e.rate > 0 { ChargedAsCovered(id, e.owner, e.rate, e.open, e.wins, t); }
  }

  // ---------------------------------------------------------------------------
  // The total charge
  // ---------------------------------------------------------------------------

  function Fees(vs: seq<Voucher>): int {
    if vs == [] then 0 else Fees(vs[..|vs| - 1]) + vs[|vs| - 1].fee
  }

  /** The time billed a second time because a push lost its reply or a write failed. */
  function ExtraTime(ws: seq<Window>): int {
    if ws == [] then 0
    else ExtraTime(ws[..|ws| - 1]) + if ws[|ws| - 1].recorded then 0 else ws[|ws| - 1].end - ws[|ws| - 1].start
  }

  lemma FeesAppend(vs: seq<Voucher>, v: Voucher)
    ensures Fees(vs + [v]) == Fees(vs) + v.fee
  {
    assert (vs + [v])[..|vs|] == vs;
  }

  function BilledTime(open: int, ws: seq<Window>): int {
    ClockAfter(open, ws) - open + ExtraTime(ws)
  }

  lemma FeesOfCharge(vs: seq<Voucher>, id: string, owner: string, rate: int, start: int, end: int)
    ensures Fees(vs + ChargeFor(id, owner, rate, start, end)) == Fees(vs) + rate * (end - start)
  {
    var charge := ChargeFor(id, owner, rate, start, end);
    if charge == [] {
      assert vs + charge == vs;
    } else {
      FeesAppend(vs, charge[0]);
    }
  }

  lemma BilledTimeNext(open: int, ws: seq<Window>)
    requires Chained(open, ws) && ws != []
    ensures BilledTime(open, ws) == BilledTime(open, ws[..|ws| - 1]) + (ws[|ws| - 1].end - ws[|ws| - 1].start)
  {
    assert Linked(open, ws, |ws| - 1);
  }

  lemma {:induction false} FeesOfWindows(id: string, owner: string, rate: int, open: int, ws: seq<Window>)
    requires Chained(open, ws)
    ensures Fees(VouchersOf(id, owner, rate, ws)) == rate * BilledTime(open, ws)
  {
    if ws == [] {
      assert BilledTime(open, ws) == 0;
    } else {
      var before, last := ws[..|ws| - 1], ws[|ws| - 1];
      ChainedPrefix(open, ws);
      FeesOfWindows(id, owner, rate, open, before);
      FeesOfCharge(VouchersOf(id, owner, rate, before), id, owner, rate, last.start, last.end);
      BilledTimeNext(open, ws);
      Distribute(rate, BilledTime(open, before), last.end - last.start);
    }
  }

  lemma ChargeOfEra(c: Config, b: Book, id: string)
    requires EraLaw(c, b, id)
    ensures var e := b.eras[id];
      && BilledTime(e.open, e.wins) == b.st.sessions[id].next - e.open + ExtraTime(e.wins)
      && Fees(Mine(b.st.queue[e.mark..], id)) == e.rate * BilledTime(e.open, e.wins)
  {
    FeesOfWindows(id, b.eras[id].owner, b.eras[id].rate, b.eras[id].open, b.eras[id].wins);
  }

  lemma NoExtraTime(ws: seq<Window>)
    requires Unrecorded(ws) == 0
    ensures ExtraTime(ws) == 0
  {
    if ws != [] { NoExtraTime(ws[..|ws| - 1]); }
  }

  /**
   * The total charge. The compute fees queued for a session since it opened are its opening rate times the
   * time its clock has moved, plus the time of the windows its clock does not know of; if the run never strayed,
   * exactly rate times (NextVoucherAt - open). Refused pushes, also of the first period, change nothing.
   */
  lemma TotalCharge(c: Config, events: seq<Event>, id: string)
    requires ValidConfig(c) && OrderlyRun(c, EMPTY, events, id)
    requires id in Run(c, EMPTY, events).st.sessions
    ensures var b := Run(c, EMPTY, events);
      && id in b.eras && b.eras[id].mark <= |b.st.queue|
      && var e := b.eras[id];
         var charged := Fees(Mine(b.st.queue[e.mark..], id));
         && b.st.sessions[id].price == Some(e.rate)
         && charged == e.rate * BilledTime(e.open, e.wins)
         && BilledTime(e.open, e.wins) == b.st.sessions[id].next - e.open + ExtraTime(e.wins)
         && (Strayed(c, EMPTY, events, id) == 0 ==> BilledTime(e.open, e.wins) == b.st.sessions[id].next - e.open)
  {
    RunKeeps(c, EMPTY, events, id);
    RunExtra(c, EMPTY, events, id);
    var b := Run(c, EMPTY, events);
    assert EraLaw(c, b, id);
    ChargeOfEra(c, b, id);
    if Strayed(c, EMPTY, events, id) == 0 { NoExtraTime(b.eras[id].wins); }
  }

  // ---------------------------------------------------------------------------
  // Phantom sessions
  // ---------------------------------------------------------------------------

  /** How many of the last sights in a row found the sandbox absent from the listing. */
  function TrailingAbsent(sights: seq<Sight>): nat {
    if sights == [] || sights[|sights| - 1] != Absent then 0 else 1 + TrailingAbsent(sights[..|sights| - 1])
  }

  predicate SkipsSeen(b: Book, id: string) {
    SkipsOf(b.st, id) <= TrailingAbsent(SeenOf(b, id))
  }

  lemma AbsentOnce(sights: seq<Sight>)
    ensures TrailingAbsent(sights + [Absent]) == TrailingAbsent(sights) + 1
  {
    assert (sights + [Absent])[..|sights|] == sights;
  }

  lemma VisitSights(c: Config, b: Book, x: Scanned, at: nat, now: int, live: Listing, f: Fates, id: string)
    requires c.interval > 0 && SkipsSeen(b, id)
    ensures SkipsSeen(Visited(c, b, x, at, now, live, f), id)
    ensures Missing(id, live) ==> TrailingAbsent(SeenOf(Visited(c, b, x, at, now, live, f), id)) ==
                                  TrailingAbsent(SeenOf(b, id)) + if id == x.id && Due(x.session, now) then 1 else 0
  {
    AbsentOnce(SeenOf(b, id));
    if id != x.id { VisitElsewhere(c, b.st, x, at, now, live, f, id); }
  }

  /** A tick that deletes a session did so at a position where it was due, absent, and confirmed gone. */
  lemma {:induction false} TickDeletes(c: Config, b: Book, scan: seq<Scanned>, at: nat, now: int, live: Listing,
                                       f: Fates, id: string)
    requires c.interval > 0 && at <= |scan| && SkipsSeen(b, id)
    ensures var d := AllVisited(c, b, scan, at, now, live, f);
      && SkipsSeen(d, id)
      && (Missing(id, live) ==> TrailingAbsent(SeenOf(d, id)) >= TrailingAbsent(SeenOf(b, id)))
      && (id in b.st.sessions && id !in d.st.sessions ==>
            && Missing(id, live) && TrailingAbsent(SeenOf(d, id)) >= PHANTOM_SKIPS_BEFORE_CONFIRM
            && exists j :: at <= j < |scan| && scan[j].id == id && Due(scan[j].session, now) && f.gone(j))
    decreases |scan| - at
  {
    if at < |scan| {
      var x, mid := scan[at], Visited(c, b, scan[at], at, now, live, f);
      VisitSights(c, b, x, at, now, live, f, id);
      TickDeletes(c, mid, scan, at + 1, now, live, f, id);
      if id != x.id { VisitElsewhere(c, b.st, x, at, now, live, f, id); }
    }
  }

  lemma {:induction false} RunSights(c: Config, b: Book, events: seq<Event>, id: string)
    requires c.interval > 0 && SkipsSeen(b, id)
    ensures SkipsSeen(Run(c, b, events), id)
    decreases events
  {
    if events != [] {
      var ev := events[0];
      if ev.TickAt? { TickDeletes(c, b, Scan(b.st, ev.order), 0, ev.now, ev.live, ev.fates, id); }
      RunSights(c, Step(c, b, ev), events[1..], id);
    }
  }

  /**
   * Phantom closing. After any run, a tick deletes a session only if this and the due sights before it
   * found the sandbox absent from a listing that succeeded, at least ten times in a row, and the lookup of
   * that very id answered that it is gone.
   */
  lemma OnlyConfirmedPhantomsClose(c: Config, events: seq<Event>, tick: Event, id: string)
    requires c.interval > 0 && tick.TickAt?
    requires id in Run(c, EMPTY, events).st.sessions && id !in Step(c, Run(c, EMPTY, events), tick).st.sessions
    ensures tick.live.Some? && id !in tick.live.value
    ensures TrailingAbsent(SeenOf(Step(c, Run(c, EMPTY, events), tick), id)) >= PHANTOM_SKIPS_BEFORE_CONFIRM
    ensures var scan := Scan(Run(c, EMPTY, events).st, tick.order);
      exists j :: 0 <= j < |scan| && scan[j].id == id && Due(scan[j].session, tick.now) && tick.fates.gone(j)
  {
    var b := Run(c, EMPTY, events);
    RunSights(c, EMPTY, events, id);
    TickDeletes(c, b, Scan(b.st, tick.order), 0, tick.now, tick.live, tick.fates, id);
  }

  // ---------------------------------------------------------------------------
  // Due sessions are billed
  // ---------------------------------------------------------------------------

  ghost predicate HasCharge(queue: seq<Voucher>, from: nat, id: string, start: int) {
    exists i :: from <= i < |queue| && queue[i].sandbox == id && queue[i].start == start && queue[i].end > start
  }

  lemma {:induction false} QueueGrows(c: Config, st: State, scan: seq<Scanned>, at: nat, now: int, live: Listing,
                                      f: Fates)
    requires c.interval > 0 && at <= |scan|
    ensures st.queue <= Visits(c, st, scan, at, now, live, f).queue
    decreases |scan| - at
  {
    if at < |scan| { QueueGrows(c, Visit(c, st, scan[at], at, now, live, f), scan, at + 1, now, live, f); }
  }

  lemma {:induction false} FirstWindowCharged(id: string, owner: string, rate: int, ws: seq<Window>)
    requires ws != [] && rate > 0 && ws[0].start < ws[0].end
    ensures var vs := VouchersOf(id, owner, rate, ws);
      vs != [] && vs[0] == Voucher(id, owner, rate * (ws[0].end - ws[0].start), ws[0].start, ws[0].end)
  {
    if |ws| > 1 {
      FirstWindowCharged(id, owner, rate, ws[..|ws| - 1]);
    } else {
      assert ws[..0] == [];
      Positive(rate, ws[0].end - ws[0].start);
    }
  }

  lemma VisitCharges(c: Config, st: State, x: Scanned, at: nat, now: int, live: Listing, f: Fates)
    requires c.interval > 0 && Due(x.session, now) && !Missing(x.id, live) && RateOf(c, x.session) > 0
    ensures HasCharge(Visit(c, st, x, at, now, live, f).queue, |st.queue|, x.id, x.session.next) <==>
            !f.pushed(at, 0).Refused?
  {
    var rate, next := RateOf(c, x.session), x.session.next;
    var ws := Billed(c, x, at, now, live, f);
    var d := Visit(c, st, x, at, now, live, f);
    OverdueEnds(c, next, now);
    Positive(c.interval, Chunk(Overdue(c, next, now)));
    Positive(rate, c.interval * Chunk(Overdue(c, next, now)));
    if !f.pushed(at, 0).Refused? {
      FirstWindowCharged(x.id, x.session.owner, rate, ws);
      assert d.queue[|st.queue|] == VouchersOf(x.id, x.session.owner, rate, ws)[0];
    } else {
      assert ws == [];
    }
  }

  lemma ChargeStays(before: seq<Voucher>, queue: seq<Voucher>, later: seq<Voucher>, from: nat, id: string, start: int)
    requires HasCharge(queue, |before|, id, start) && queue <= later && from <= |before|
    ensures HasCharge(later, from, id, start)
  {
    var i :| |before| <= i < |queue| && queue[i].sandbox == id && queue[i].start == start && queue[i].end > start;
    assert later[i] == queue[i];
  }

  lemma TickChargesFirst(c: Config, st: State, scan: seq<Scanned>, at: nat, now: int, live: Listing, f: Fates,
                         from: nat)
    requires c.interval > 0 && at < |scan| && from <= |st.queue|
    requires Due(scan[at].session, now) && !Missing(scan[at].id, live) && RateOf(c, scan[at].session) > 0
    requires !f.pushed(at, 0).Refused?
    ensures HasCharge(Visits(c, st, scan, at, now, live, f).queue, from, scan[at].id, scan[at].session.next)
  {
    var d := Visit(c, st, scan[at], at, now, live, f);
    VisitCharges(c, st, scan[at], at, now, live, f);
    QueueGrows(c, d, scan, at + 1, now, live, f);
    var later := Visits(c, d, scan, at + 1, now, live, f).queue;
    ChargeStays(st.queue, d.queue, later, from, scan[at].id, scan[at].session.next);
  }

  lemma VisitQueueGrows(c: Config, st: State, x: Scanned, at: nat, now: int, live: Listing, f: Fates)
    requires c.interval > 0
    ensures st.queue <= Visit(c, st, x, at, now, live, f).queue
  {
  }

  lemma {:induction false} TickCharges(c: Config, st: State, scan: seq<Scanned>, at: nat, j: nat, now: int,
                                       live: Listing, f: Fates, from: nat)
    requires c.interval > 0 && at <= j < |scan| && from <= |st.queue|
    requires Due(scan[j].session, now) && !Missing(scan[j].id, live) && RateOf(c, scan[j].session) > 0
    requires !f.pushed(j, 0).Refused?
    ensures HasCharge(Visits(c, st, scan, at, now, live, f).queue, from, scan[j].id, scan[j].session.next)
    decreases |scan| - at
  {
    if at == j {
      TickChargesFirst(c, st, scan, at, now, live, f, from);
    } else {
      VisitQueueGrows(c, st, scan[at], at, now, live, f);
      TickCharges(c, Visit(c, st, scan[at], at, now, live, f), scan, at + 1, j, now, live, f, from);
    }
  }

  /**
   * A failed listing never suppresses billing, and neither does a listing that has the sandbox: a due
   * session with a positive rate gets a voucher from where its clock stands, unless its push fails.
   */
  lemma DueSessionsAreBilled(c: Config, st: State, order: seq<string>, j: nat, now: int, live: Listing, f: Fates)
    requires c.interval > 0 && j < |Scan(st, order)|
    requires var x := Scan(st, order)[j];
      Due(x.session, now) && RateOf(c, x.session) > 0 && !f.pushed(j, 0).Refused? && (live.None? || x.id in live.value)
    ensures var x := Scan(st, order)[j];
      HasCharge(Tick(c, st, order, now, live, f).queue, |st.queue|, x.id, x.session.next)
  {
    TickCharges(c, st, Scan(st, order), 0, j, now, live, f, |st.queue|);
  }

  // ---------------------------------------------------------------------------
  // What a scan that reports a key more than once does
  // ---------------------------------------------------------------------------

  /** The visits among the first `n` of the scan that queue a voucher for `id`. */
  function Hits(scan: seq<Scanned>, n: nat, id: string, f: Fates): nat
    requires n <= |scan|
  {
    if n == 0 then 0
    else Hits(scan, n - 1, id, f) + if scan[n - 1].id == id && !f.pushed(n - 1, 0).Refused? then 1 else 0
  }

  lemma {:induction false} ClockPastFirst(open: int, ws: seq<Window>)
    requires Chained(open, ws) && ws != [] && ws[0].recorded
    ensures ws[0].end <= ClockAfter(open, ws)
  {
    var last := |ws| - 1;
    ChainedPrefix(open, ws);
    if last > 0 {
      ClockPastFirst(open, ws[..last]);
    }
  }

  /** A catch-up bills the second at which it starts exactly once. */
  lemma {:induction false} FirstSecondOnce(open: int, ws: seq<Window>)
    requires Chained(open, ws) && ws != [] && (|ws| > 1 ==> ws[0].recorded)
    ensures Cover(ws, open) == 1
  {
    var last := |ws| - 1;
    ChainedPrefix(open, ws);
    if last > 0 {
      FirstSecondOnce(open, ws[..last]);
      ClockPastFirst(open, ws[..last]);
      assert Linked(open, ws, 0) && ws[..0] == [];
    } else {
      assert ws[..0] == [];
      assert Cover(ws[..0], open) == 0;
    }
  }

  lemma {:induction false} ChargedAppend(us: seq<Voucher>, vs: seq<Voucher>, t: int)
    ensures Charged(us + vs, t) == Charged(us, t) + Charged(vs, t)
  {
    if vs == [] {
      assert us + vs == us;
    } else {
      assert (us + vs)[..|us + vs| - 1] == us + vs[..|vs| - 1];
      ChargedAppend(us, vs[..|vs| - 1], t);
    }
  }

  /**
   * A catch-up that bills nothing was refused its first push; one that bills more than one window has recorded the
   * first.
   */
  lemma BilledIfPushed(c: Config, x: Scanned, at: nat, now: int, live: Listing, f: Fates)
    requires c.interval > 0 && Due(x.session, now) && !Missing(x.id, live) && RateOf(c, x.session) > 0
    ensures var ws := Billed(c, x, at, now, live, f);
      (ws != [] <==> !f.pushed(at, 0).Refused?) && (|ws| > 1 ==> ws[0].recorded)
  {
    OverdueEnds(c, x.session.next, now);
    hide Chunk, Overdue;
  }

  /** One visit charges the second at which its copy of the session stands once, unless its push is refused. */
  lemma VisitHits(c: Config, st: State, x: Scanned, at: nat, now: int, live: Listing, f: Fates, id: string, t: int)
    requires c.interval > 0
    requires x.id == id ==> Due(x.session, now) && !Missing(id, live) && RateOf(c, x.session) > 0 && x.session.next == t
    ensures Charged(Mine(Visit(c, st, x, at, now, live, f).queue, id), t) ==
            Charged(Mine(st.queue, id), t) + if x.id == id && !f.pushed(at, 0).Refused? then 1 else 0
  {
    hide *;
    var rate, ws := RateOf(c, x.session), Billed(c, x, at, now, live, f);
    var more := VouchersOf(x.id, x.session.owner, rate, ws);
    VouchersAreFor(x.id, x.session.owner, rate, ws);
    VisitQueues(c, st, x, at, now, live, f);
    MineAppend(st.queue, more, id);
    MineOfOne(more, x.id, id);
    ChargedAppend(Mine(st.queue, id), more, t);
    assert Mine(st.queue, id) + [] == Mine(st.queue, id);
    if x.id == id {
      BilledWindows(c, x, at, now, live, f);
      BilledIfPushed(c, x, at, now, live, f);
      ChargedAsCovered(id, x.session.owner, rate, t, ws, t);
      NothingCovered(t);
      if ws != [] {
        FirstSecondOnce(t, ws);
      }
    }
  }

  lemma NothingCovered(t: int)
    ensures Cover([], t) == 0
  {
  }

  lemma {:induction false} VisitsHit(c: Config, st: State, scan: seq<Scanned>, at: nat, now: int, live: Listing,
                                     f: Fates, id: string, s: Session)
    requires c.interval > 0 && at <= |scan| && Due(s, now) && !Missing(id, live) && RateOf(c, s) > 0
    requires forall j | 0 <= j < |scan| && scan[j].id == id :: scan[j].session == s
    ensures Charged(Mine(Visits(c, st, scan, at, now, live, f).queue, id), s.next) ==
            Charged(Mine(st.queue, id), s.next) + Hits(scan, |scan|, id, f) - Hits(scan, at, id, f)
    decreases |scan| - at
  {
    if at < |scan| {
      VisitHits(c, st, scan[at], at, now, live, f, id, s.next);
      VisitsHit(c, Visit(c, st, scan[at], at, now, live, f), scan, at + 1, now, live, f, id, s);
    }
  }

  lemma {:induction false} HitsPrefix(scan: seq<Scanned>, more: seq<Scanned>, n: nat, id: string, f: Fates)
    requires n <= |scan|
    ensures Hits(scan + more, n, id, f) == Hits(scan, n, id, f)
  {
    if n > 0 {
      HitsPrefix(scan, more, n - 1, id, f);
    }
  }

  lemma {:induction false} HitsAreTimes(st: State, order: seq<string>, id: string, f: Fates)
    requires id in st.sessions && forall at: nat, k: nat :: !f.pushed(at, k).Refused?
    ensures Hits(Scan(st, order), |Scan(st, order)|, id, f) == Times(order, id)
  {
    if order != [] {
      var front, last := order[..|order| - 1], order[|order| - 1];
      var before := Scan(st, front);
      HitsAreTimes(st, front, id, f);
      if last in st.sessions {
        HitsPrefix(before, [Scanned(last, st.sessions[last])], |before|, id, f);
      } else {
        assert before + [] == before;
      }
    }
  }

  /**
   * Redis may report a key more than once in a scan. A due session is then billed from its clock once for every
   * visit whose push is not refused; so while no push is, it is billed once if and only if its key is reported
   * once.
   */
  lemma RepeatedKeyIsBilledPerReport(c: Config, st: State, order: seq<string>, now: int, live: Listing, f: Fates,
                                     id: string)
    requires c.interval > 0 && id in st.sessions
    requires Due(st.sessions[id], now) && !Missing(id, live) && RateOf(c, st.sessions[id]) > 0
    ensures var t, scan := st.sessions[id].next, Scan(st, order);
      var billed := Charged(Mine(Tick(c, st, order, now, live, f).queue, id), t) - Charged(Mine(st.queue, id), t);
      && billed == Hits(scan, |scan|, id, f)
      && ((forall at: nat, k: nat :: !f.pushed(at, k).Refused?) ==>
            billed == Times(order, id) && (billed == 1 <==> Times(order, id) == 1))
  {
    VisitsHit(c, st, Scan(st, order), 0, now, live, f, id, st.sessions[id]);
    if forall at: nat, k: nat :: !f.pushed(at, k).Refused? {
      HitsAreTimes(st, order, id, f);
    }
  }

  // ---------------------------------------------------------------------------
  // Rates
  // ---------------------------------------------------------------------------

  /**
   * The generator bills a session at the price it opened at if and only if that price is positive or the
   * flat price is zero; under the startup rule, always.
   */
  lemma GeneratorRateIsOpeningPrice(c: Config, owner: string, next: int, cpu: nat, memGB: nat)
    ensures RateOf(c, Session(owner, next, Some(ComputePrice(c, cpu, memGB)))) == ComputePrice(c, cpu, memGB)
            <==> ComputePrice(c, cpu, memGB) > 0 || c.flat == 0
    ensures forall interval: int, perCpu: nat, perMem: nat, envFlat: nat, fee: nat ::
              c == StartupPrices(interval, perCpu, perMem, envFlat, fee) ==>
              ComputePrice(c, cpu, memGB) > 0 || c.flat == 0
  {
  }
}
