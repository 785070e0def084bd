/**
What holds of the ledger over every run of hooks and generator ticks, with any
pushes and writes failing.
*/
module LedgerLaws {
  import opened Arithmetic
  import opened Sequences
  import opened Wrappers
  import opened Ledger

  // ---------------------------------------------------------------------------
  // A ledger with its history
  // ---------------------------------------------------------------------------

  /** What an open session has been through: when it opened, at which queue length, and every window billed for it. */
  datatype Era = Era(owner: string, rate: nat, open: int, mark: nat, wins: seq<Window>)

  /** What a tick saw of a due session. */
  datatype Sight = Absent | Present | Unlisted

  /** clock: the latest time any operation has run at. */
  datatype Book = Book(st: State, eras: map<string, Era>, seen: map<string, seq<Sight>>, clock: int)

  datatype Event =
    | Create(id: string, owner: string, cpu: nat, memGB: nat, now: int, hook: HookFates)
    | Start(id: string, owner: string, cpu: nat, memGB: nat, now: int, hook: HookFates)
    | Stop(id: string, deleted: bool)
    | TickAt(order: seq<string>, now: int, live: Listing, fates: Fates)

  function SeenOf(b: Book, id: string): seq<Sight> {
    if id in b.seen then b.seen[id] else []
  }

  function SightOf(id: string, live: Listing): Sight {
    if live.None? then Unlisted else if id in live.value then Present else Absent
  }

  function Opening(c: Config, st: State, owner: string, cpu: nat, memGB: nat, now: int, hook: HookFates,
                   mark: nat): Era {
    Era(owner, ComputePrice(c, cpu, memGB), now, mark,
        if ComputePrice(c, cpu, memGB) != 0 && hook.periodPushed.Refused? then []
        else [Window(now, now + c.interval, FirstCharged(c, cpu, memGB, hook))])
  }

  function Visited(c: Config, b: Book, x: Scanned, at: nat, now: int, live: Listing, f: Fates): Book
    requires c.interval > 0
  {
    Book(Visit(c, b.st, x, at, now, live, f),
         if x.id !in b.eras then b.eras
         else b.eras[x.id := b.eras[x.id].(wins := b.eras[x.id].wins + Billed(c, x, at, now, live, f))],
         if Due(x.session, now) then b.seen[x.id := SeenOf(b, x.id) + [SightOf(x.id, live)]] else b.seen,
         Max(b.clock, now))
  }

  function AllVisited(c: Config, b: Book, scan: seq<Scanned>, at: nat, now: int, live: Listing, f: Fates): Book
    requires c.interval > 0 && at <= |scan|
    decreases |scan| - at
  {
    if at == |scan| then b else AllVisited(c, Visited(c, b, scan[at], at, now, live, f), scan, at + 1, now, live, f)
  }

  lemma {:induction false} BookFollowsState(c: Config, b: Book, scan: seq<Scanned>, at: nat, now: int, live: Listing,
                                            f: Fates)
    requires c.interval > 0 && at <= |scan|
    ensures AllVisited(c, b, scan, at, now, live, f).st == Visits(c, b.st, scan, at, now, live, f)
    decreases |scan| - at
  {
    hide Visit;
    if at < |scan| {
      BookFollowsState(c, Visited(c, b, scan[at], at, now, live, f), scan, at + 1, now, live, f);
    }
  }

  function Step(c: Config, b: Book, ev: Event): Book
    requires c.interval > 0
  {
    match ev
    case Create(id, owner, cpu, memGB, now, hook) =>
      var st := OnCreate(c, b.st, id, owner, cpu, memGB, now, hook);
      var mark := |b.st.queue + CreateFee(c, id, owner, now, hook)|;
      b.(st := st, clock := Max(b.clock, now),
         eras := if hook.stored then b.eras[id := Opening(c, st, owner, cpu, memGB, now, hook, mark)] else b.eras)
    case Start(id, owner, cpu, memGB, now, hook) =>
      var st := OnStart(c, b.st, id, owner, cpu, memGB, now, hook);
      b.(st := st, clock := Max(b.clock, now),
         eras := if id !in b.st.sessions && id in st.sessions
                 then b.eras[id := Opening(c, st, owner, cpu, memGB, now, hook, |b.st.queue|)] else b.eras)
    case Stop(id, deleted) => b.(st := OnStop(b.st, id, deleted))
    case TickAt(order, now, live, f) =>
      AllVisited(c, b, Scan(b.st, order), 0, now, live, f)
  }

  function Run(c: Config, b: Book, events: seq<Event>): Book
    requires c.interval > 0
    decreases events
  {
    if events == [] then b else Run(c, Step(c, b, events[0]), events[1..])
  }

  /** What a create queues. */
  function Queued(c: Config, ev: Event): seq<Voucher>
    requires ev.Create?
  {
    CreateFee(c, ev.id, ev.owner, ev.now, ev.hook) + FirstPeriod(c, ev.id, ev.owner, ev.cpu, ev.memGB, ev.now, ev.hook)
  }

  /**
   * For one sandbox: a scan reports its key at most once, and a create does not queue vouchers for it while its
   * session is open already and the new one is not written.
   */
  predicate Orderly(c: Config, b: Book, ev: Event, id: string) {
    match ev
    case Create(created, _, _, _, _, hook) =>
      created == id ==> id !in b.st.sessions || hook.stored || Queued(c, ev) == []
    case TickAt(order, _, _, _) => Times(order, id) <= 1
    case _ => true
  }

  predicate OrderlyRun(c: Config, b: Book, events: seq<Event>, id: string)
    requires c.interval > 0
    decreases events
  {
    events == [] || (Orderly(c, b, events[0], id) && OrderlyRun(c, Step(c, b, events[0]), events[1..], id))
  }

  /** No session, nothing queued. */
  const EMPTY := Book(State(map[], [], map[], {}), map[], map[], 0)

  // ---------------------------------------------------------------------------
  // The law of one session
  // ---------------------------------------------------------------------------

  /** Every window starts where the session's clock stood, and the recorded ones move it. */
  ghost predicate Chained(open: int, ws: seq<Window>) {
    forall i {:trigger Linked(open, ws, i)} | 0 <= i < |ws| :: Linked(open, ws, i)
  }

  ghost predicate Linked(open: int, ws: seq<Window>, i: nat)
    requires i < |ws|
  {
    ws[i].start == ClockAfter(open, ws[..i]) && ws[i].start < ws[i].end
  }

  lemma ChainedPrefix(open: int, ws: seq<Window>)
    requires Chained(open, ws) && ws != []
    ensures Chained(open, ws[..|ws| - 1]) && Linked(open, ws, |ws| - 1)
  {
    var before := ws[..|ws| - 1];
    forall i | 0 <= i < |before| ensures Linked(open, before, i) {
      assert before[..i] == ws[..i] && Linked(open, ws, i);
    }
  }

  /** The compute vouchers of one sandbox. */
  function Mine(queue: seq<Voucher>, id: string): seq<Voucher> {
    if queue == [] then []
    else Mine(queue[..|queue| - 1], id) + if queue[|queue| - 1].sandbox == id then [queue[|queue| - 1]] else []
  }

  ghost predicate EraLaw(c: Config, b: Book, id: string) {
    && id in b.eras
    && id in b.st.sessions
    && var e := b.eras[id];
       var s := b.st.sessions[id];
       && s.owner == e.owner && s.price == Some(e.rate) && RateOf(c, s) == e.rate
       && s.next == ClockAfter(e.open, e.wins)
       && Chained(e.open, e.wins)
       && (forall w | w in e.wins :: w.end <= b.clock + c.interval)
       && e.mark <= |b.st.queue|
       && Mine(b.st.queue[e.mark..], id) == VouchersOf(id, e.owner, e.rate, e.wins)
  }

  /** The law of one sandbox: it holds whenever a session is open. */
  ghost predicate LawOf(c: Config, b: Book, id: string) {
    id in b.st.sessions ==> EraLaw(c, b, id)
  }

  // ---------------------------------------------------------------------------
  // Facts about windows and queues
  // ---------------------------------------------------------------------------

  lemma ClockAfterAppend(open: int, vs: seq<Window>, ws: seq<Window>)
    ensures ClockAfter(open, vs + ws) == ClockAfter(ClockAfter(open, vs), ws)
  {
    if ws == [] {
      assert vs + ws == vs;
    } else {
      assert (vs + ws)[..|vs + ws| - 1] == vs + ws[..|ws| - 1];
      ClockAfterAppend(open, vs, ws[..|ws| - 1]);
    }
  }

  lemma ChainedAppend(open: int, vs: seq<Window>, ws: seq<Window>)
    requires Chained(open, vs) && Chained(ClockAfter(open, vs), ws)
    ensures Chained(open, vs + ws)
  {
    var all := vs + ws;
    forall i | 0 <= i < |all| ensures Linked(open, all, i) {
      if i < |vs| {
        assert all[..i] == vs[..i] && Linked(open, vs, i);
      } else {
        assert all[..i] == vs + ws[..i - |vs|] && Linked(ClockAfter(open, vs), ws, i - |vs|);
        ClockAfterAppend(open, vs, ws[..i - |vs|]);
      }
    }
  }

  lemma VouchersAppend(id: string, owner: string, rate: int, vs: seq<Window>, ws: seq<Window>)
    ensures VouchersOf(id, owner, rate, vs + ws) == VouchersOf(id, owner, rate, vs) + VouchersOf(id, owner, rate, ws)
  {
    if ws == [] {
      assert vs + ws == vs;
    } else {
      assert (vs + ws)[..|vs + ws| - 1] == vs + ws[..|ws| - 1];
      VouchersAppend(id, owner, rate, vs, ws[..|ws| - 1]);
    }
  }

  lemma MineAppend(p: seq<Voucher>, q: seq<Voucher>, id: string)
    ensures Mine(p + q, id) == Mine(p, id) + Mine(q, id)
  {
    if q == [] {
      assert p + q == p;
    } else {
      assert (p + q)[..|p + q| - 1] == p + q[..|q| - 1];
      MineAppend(p, q[..|q| - 1], id);
    }
  }

  lemma MineOfOne(q: seq<Voucher>, owner: string, id: string)
    requires forall v | v in q :: v.sandbox == owner
    ensures Mine(q, id) == if id == owner then q else []
  {
    if q != [] {
      MineOfOne(q[..|q| - 1], owner, id);
      assert q == q[..|q| - 1] + [q[|q| - 1]];
    }
  }

  lemma VouchersAreFor(id: string, owner: string, rate: int, ws: seq<Window>)
    ensures forall v | v in VouchersOf(id, owner, rate, ws) :: v.sandbox == id
  {
    if ws != [] { VouchersAreFor(id, owner, rate, ws[..|ws| - 1]); }
  }

  /** One catch-up's windows: each starts where the one before left the clock. */
  lemma {:induction false} CatchUpChained(c: Config, rate: int, next: int, overdue: int, k: nat, at: nat, f: Fates)
    requires c.interval > 0
    ensures Chained(next, CatchUp(c, rate, next, overdue, k, at, f))
    decreases CATCHUP_MAX_VOUCHERS_PER_TICK - k
  {
    var ws := CatchUp(c, rate, next, overdue, k, at, f);
    if ws != [] {
      Positive(c.interval, Chunk(overdue));
      assert ws[..0] == [];
      if |ws| > 1 {
        CatchUpChained(c, rate, ws[0].end, overdue - Chunk(overdue), k + 1, at, f);
        assert [ws[0]][..0] == [];
        ChainedAppend(next, [ws[0]], ws[1..]);
      }
    }
  }

  /** They bill no period beyond the overdue ones. */
  lemma {:induction false} CatchUpBounded(c: Config, rate: int, next: int, overdue: int, k: nat, at: nat, f: Fates)
    requires c.interval > 0 && overdue >= 0
    ensures forall w | w in CatchUp(c, rate, next, overdue, k, at, f) :: w.end <= next + c.interval * overdue
    decreases CATCHUP_MAX_VOUCHERS_PER_TICK - k
  {
    var ws := CatchUp(c, rate, next, overdue, k, at, f);
    if ws != [] {
      var rest := overdue - Chunk(overdue);
      assert c.interval * Chunk(overdue) + c.interval * rest == c.interval * overdue;
      assert c.interval * rest >= 0;
      if |ws| > 1 { CatchUpBounded(c, rate, ws[0].end, rest, k + 1, at, f); }
    }
  }

  function Unrecorded(ws: seq<Window>): nat {
    if ws == [] then 0 else Unrecorded(ws[..|ws| - 1]) + if ws[|ws| - 1].recorded then 0 else 1
  }

  lemma UnrecordedAppend(vs: seq<Window>, ws: seq<Window>)
    ensures Unrecorded(vs + ws) == Unrecorded(vs) + Unrecorded(ws)
  {
    if ws == [] {
      assert vs + ws == vs;
    } else {
      assert (vs + ws)[..|vs + ws| - 1] == vs + ws[..|ws| - 1];
      UnrecordedAppend(vs, ws[..|ws| - 1]);
    }
  }

  lemma UnrecordedCons(w: Window, ws: seq<Window>)
    ensures Unrecorded([w] + ws) == (if w.recorded then 0 else 1) + Unrecorded(ws)
  {
    UnrecordedAppend([w], ws);
    assert [w][..0] == [];
  }

  /**
   * A catch-up leaves a window unrecorded exactly when its last push lost its reply or the session write after it
   * failed.
   */
  lemma {:induction false} OneExtraPerStray(c: Config, rate: int, next: int, overdue: int, k: nat, at: nat, f: Fates)
    ensures var ws := CatchUp(c, rate, next, overdue, k, at, f);
      Unrecorded(ws) == if |ws| > 0 && Strays(rate, at, k + |ws| - 1, f) then 1 else 0
    decreases CATCHUP_MAX_VOUCHERS_PER_TICK - k
  {
    hide Chunk, Unrecorded;
    UnrecordedNone();
    var ws := CatchUp(c, rate, next, overdue, k, at, f);
    if ws != [] {
      var end := next + c.interval * Chunk(overdue);
      if Strays(rate, at, k, f) || f.written(at, k).Lost? {
        UnrecordedCons(Window(next, end, !Strays(rate, at, k, f)), []);
        assert ws == [Window(next, end, !Strays(rate, at, k, f))] + [];
      } else {
        OneExtraPerStray(c, rate, end, overdue - Chunk(overdue), k + 1, at, f);
        UnrecordedCons(Window(next, end, true), CatchUp(c, rate, end, overdue - Chunk(overdue), k + 1, at, f));
      }
    }
  }

  lemma UnrecordedNone()
    ensures Unrecorded([]) == 0
  {
  }

  // ---------------------------------------------------------------------------
  // Every operation keeps the law
  // ---------------------------------------------------------------------------

  lemma RateIsComputePrice(c: Config, owner: string, next: int, cpu: nat, memGB: nat)
    requires ValidConfig(c)
    ensures RateOf(c, Session(owner, next, Some(ComputePrice(c, cpu, memGB)))) == ComputePrice(c, cpu, memGB)
  {
  }

  /** A session that is not the operation's own: more vouchers of other sandboxes are queued, the clock moves on. */
  lemma OtherKeeps(c: Config, b: Book, d: Book, id: string, other: string, more: seq<Voucher>)
    requires EraLaw(c, b, id) && id != other
    requires id in d.eras && d.eras[id] == b.eras[id] && id in d.st.sessions && d.st.sessions[id] == b.st.sessions[id]
    requires d.clock >= b.clock && d.st.queue == b.st.queue + more && forall v | v in more :: v.sandbox == other
    ensures EraLaw(c, d, id)
  {
    var m := b.eras[id].mark;
    assert d.st.queue[m..] == b.st.queue[m..] + more;
    MineAppend(b.st.queue[m..], more, id);
    MineOfOne(more, other, id);
  }

  /** A visit keeps the law of a sandbox, whatever holds of the others, if its copy of the session is current. */
  lemma VisitKeeps(c: Config, b: Book, x: Scanned, at: nat, now: int, live: Listing, f: Fates, id: string)
    requires ValidConfig(c) && LawOf(c, b, id)
    requires x.id == id ==> id in b.st.sessions && b.st.sessions[id] == x.session
    ensures LawOf(c, Visited(c, b, x, at, now, live, f), id)
  {
    var d := Visited(c, b, x, at, now, live, f);
    if id in d.st.sessions {
      if id != x.id {
        var more := VouchersOf(x.id, x.session.owner, RateOf(c, x.session), Billed(c, x, at, now, live, f));
        VisitElsewhere(c, b.st, x, at, now, live, f, id);
        VouchersAreFor(x.id, x.session.owner, RateOf(c, x.session), Billed(c, x, at, now, live, f));
        VisitQueues(c, b.st, x, at, now, live, f);
        hide Visit, Billed, VouchersOf, EraLaw;
        assert EraLaw(c, b, id);
        HasEra(c, b, id);
        OtherKeeps(c, b, d, id, x.id, more);
      } else {
        OwnKeeps(c, b, x, at, now, live, f);
      }
    }
  }

  lemma HasEra(c: Config, b: Book, id: string)
    requires EraLaw(c, b, id)
    ensures id in b.eras && id in b.st.sessions
  {
  }

  /** A visit queues the vouchers of the windows it bills, and nothing else. */
  lemma VisitQueues(c: Config, st: State, x: Scanned, at: nat, now: int, live: Listing, f: Fates)
    requires c.interval > 0
    ensures Visit(c, st, x, at, now, live, f).queue ==
            st.queue + VouchersOf(x.id, x.session.owner, RateOf(c, x.session), Billed(c, x, at, now, live, f))
  {
    hide CatchUp, ClockAfter, ChargeFor;
    NoVouchers(st.queue, x, RateOf(c, x.session));
    hide VouchersOf;
  }

  lemma NoVouchers(queue: seq<Voucher>, x: Scanned, rate: int)
    ensures queue + VouchersOf(x.id, x.session.owner, rate, []) == queue
  {
  }

  lemma OwnQueue(c: Config, b: Book, x: Scanned, at: nat, now: int, live: Listing, f: Fates)
    requires c.interval > 0 && EraLaw(c, b, x.id) && b.st.sessions[x.id] == x.session
    ensures var d := Visited(c, b, x, at, now, live, f);
      var e := d.eras[x.id];
      e.mark <= |d.st.queue| && Mine(d.st.queue[e.mark..], x.id) == VouchersOf(x.id, e.owner, e.rate, e.wins)
  {
    hide CatchUp, ClockAfter, Mine, VouchersOf, Visit, Billed, Chained;
    var e, ws := b.eras[x.id], Billed(c, x, at, now, live, f);
    var more := VouchersOf(x.id, e.owner, e.rate, ws);
    VisitQueues(c, b.st, x, at, now, live, f);
    VouchersAppend(x.id, e.owner, e.rate, e.wins, ws);
    assert (b.st.queue + more)[e.mark..] == b.st.queue[e.mark..] + more;
    MineAppend(b.st.queue[e.mark..], more, x.id);
    VouchersAreFor(x.id, e.owner, e.rate, ws);
    MineOfOne(more, x.id, x.id);
  }

  lemma BilledWindows(c: Config, x: Scanned, at: nat, now: int, live: Listing, f: Fates)
    requires c.interval > 0
    ensures var ws := Billed(c, x, at, now, live, f);
      Chained(x.session.next, ws) && forall w | w in ws :: w.end <= now + c.interval
  {
    if Billed(c, x, at, now, live, f) != [] {
      var next, rate := x.session.next, RateOf(c, x.session);
      var overdue := Overdue(c, next, now);
      OverdueEnds(c, next, now);
      CatchUpChained(c, rate, next, overdue, 0, at, f);
      CatchUpBounded(c, rate, next, overdue, 0, at, f);
    }
  }

  lemma OwnSession(c: Config, b: Book, x: Scanned, at: nat, now: int, live: Listing, f: Fates)
    requires c.interval > 0 && x.id in b.st.sessions && b.st.sessions[x.id] == x.session
    requires x.id in Visited(c, b, x, at, now, live, f).st.sessions
    ensures Visited(c, b, x, at, now, live, f).st.sessions[x.id] ==
            x.session.(next := ClockAfter(x.session.next, Billed(c, x, at, now, live, f)))
  {
    NotAdvanced(c, x, at, now, live, f);
  }

  lemma OwnKeeps(c: Config, b: Book, x: Scanned, at: nat, now: int, live: Listing, f: Fates)
    requires c.interval > 0 && EraLaw(c, b, x.id) && b.st.sessions[x.id] == x.session
    requires x.id in Visited(c, b, x, at, now, live, f).st.sessions
    ensures EraLaw(c, Visited(c, b, x, at, now, live, f), x.id)
  {
    var e, ws := b.eras[x.id], Billed(c, x, at, now, live, f);
    OwnQueue(c, b, x, at, now, live, f);
    OwnSession(c, b, x, at, now, live, f);
    BilledWindows(c, x, at, now, live, f);
    ClockAfterAppend(e.open, e.wins, ws);
    ChainedAppend(e.open, e.wins, ws);
  }

  /** The overdue periods end within one interval from now. */
  lemma OverdueEnds(c: Config, next: int, now: int)
    requires c.interval > 0 && next <= now
    ensures Overdue(c, next, now) >= 1
    ensures now < next + c.interval * Overdue(c, next, now) <= now + c.interval
  {
    var q := (now - next) / c.interval;
    assert now - next == c.interval * q + (now - next) % c.interval;
    assert c.interval * (q + 1) == c.interval * q + c.interval;
    assert q >= 0;
  }

  lemma NotAdvanced(c: Config, x: Scanned, at: nat, now: int, live: Listing, f: Fates)
    requires c.interval > 0
    ensures var ws := Billed(c, x, at, now, live, f);
      !Advances(ws) ==> ClockAfter(x.session.next, ws) == x.session.next
  {
    var ws := Billed(c, x, at, now, live, f);
    if ws != [] && !ws[0].recorded {
      assert |ws| == 1 && ws[..0] == [];
    }
  }

  /** From position `at` on, the scan reports the sandbox at most once, and then with its session as it is. */
  ghost predicate FreshCopy(st: State, scan: seq<Scanned>, at: nat, id: string) {
    && (forall i, j | at <= i < |scan| && at <= j < |scan| && scan[i].id == id && scan[j].id == id :: i == j)
    && (forall j | at <= j < |scan| && scan[j].id == id :: id in st.sessions && st.sessions[id] == scan[j].session)
  }

  lemma {:induction false} ScanIsFresh(st: State, order: seq<string>, id: string)
    requires Times(order, id) <= 1
    ensures FreshCopy(st, Scan(st, order), 0, id)
  {
    if order != [] {
      var front := order[..|order| - 1];
      ScanIsFresh(st, front, id);
      TimesZero(front, id);
      assert forall x | x in Scan(st, front) :: x.id in front;
      assert forall j | 0 <= j < |Scan(st, front)| :: Scan(st, front)[j] in Scan(st, front);
    }
  }

  /** A visit leaves every other session alone. */
  lemma VisitElsewhere(c: Config, st: State, x: Scanned, at: nat, now: int, live: Listing, f: Fates, id: string)
    requires c.interval > 0 && id != x.id
    ensures var d := Visit(c, st, x, at, now, live, f);
      (id in d.sessions <==> id in st.sessions) && (id in d.sessions ==> d.sessions[id] == st.sessions[id])
      && SkipsOf(d, id) == SkipsOf(st, id)
  {
  }

  lemma RestIsFresh(c: Config, st: State, scan: seq<Scanned>, at: nat, now: int, live: Listing, f: Fates, id: string)
    requires c.interval > 0 && at < |scan| && FreshCopy(st, scan, at, id)
    ensures FreshCopy(Visit(c, st, scan[at], at, now, live, f), scan, at + 1, id)
  {
    if scan[at].id != id {
      VisitElsewhere(c, st, scan[at], at, now, live, f, id);
    }
    hide Visit;
  }

  lemma {:induction false} TickKeeps(c: Config, b: Book, scan: seq<Scanned>, at: nat, now: int, live: Listing, f: Fates,
                                     id: string)
    requires ValidConfig(c) && LawOf(c, b, id) && at <= |scan| && FreshCopy(b.st, scan, at, id)
    ensures LawOf(c, AllVisited(c, b, scan, at, now, live, f), id)
    decreases |scan| - at
  {
    if at < |scan| {
      VisitKeeps(c, b, scan[at], at, now, live, f, id);
      RestIsFresh(c, b.st, scan, at, now, live, f, id);
      hide Visit, Billed, LawOf, FreshCopy;
      TickKeeps(c, Visited(c, b, scan[at], at, now, live, f), scan, at + 1, now, live, f, id);
    }
  }

  /** A new era: its queue holds the first period's voucher, or nothing. */
  lemma EraOpens(c: Config, d: Book, id: string, owner: string, cpu: nat, memGB: nat, now: int, hook: HookFates,
                 before: seq<Voucher>)
    requires ValidConfig(c) && d.clock >= now
    requires var first := FirstPeriod(c, id, owner, cpu, memGB, now, hook);
      var next := if FirstCharged(c, cpu, memGB, hook) then now + c.interval else now;
      && d.st.queue == before + first
      && id in d.eras && d.eras[id] == Opening(c, d.st, owner, cpu, memGB, now, hook, |before|)
      && id in d.st.sessions && d.st.sessions[id] == Session(owner, next, Some(ComputePrice(c, cpu, memGB)))
    ensures EraLaw(c, d, id)
  {
    hide ComputePrice, IntervalCost, ChargeFor, Mine, RateOf;
    var e, first := d.eras[id], FirstPeriod(c, id, owner, cpu, memGB, now, hook);
    assert d.st.queue[e.mark..] == first;
    FreeOfCharge(id, owner, now, now + c.interval);
    ChargeIsFor(id, owner, ComputePrice(c, cpu, memGB), now, now + c.interval);
    MineOfOne(first, id, id);
    RateIsComputePrice(c, owner, d.st.sessions[id].next, cpu, memGB);
    if e.wins != [] {
      OneVoucher(id, owner, e.rate, e.wins[0]);
      assert e.wins[..0] == [] && Linked(e.open, e.wins, 0);
    }
  }

  lemma ChargeIsFor(id: string, owner: string, rate: int, start: int, end: int)
    ensures forall v | v in ChargeFor(id, owner, rate, start, end) :: v.sandbox == id
  {
  }

  lemma FreeOfCharge(id: string, owner: string, start: int, end: int)
    ensures ChargeFor(id, owner, 0, start, end) == []
  {
  }

  lemma OneVoucher(id: string, owner: string, rate: int, w: Window)
    ensures VouchersOf(id, owner, rate, [w]) == ChargeFor(id, owner, rate, w.start, w.end)
  {
    assert [w][..0] == [];
  }

  lemma CreateKeeps(c: Config, b: Book, ev: Event, id: string)
    requires ValidConfig(c) && LawOf(c, b, id) && Orderly(c, b, ev, id) && ev.Create?
    ensures LawOf(c, Step(c, b, ev), id)
  {
    var d := Step(c, b, ev);
    var fee := CreateFee(c, ev.id, ev.owner, ev.now, ev.hook);
    assert d.st.queue == b.st.queue + Queued(c, ev);
    if id in d.st.sessions {
      if id != ev.id {
        OtherKeeps(c, b, d, id, ev.id, Queued(c, ev));
      } else if ev.hook.stored {
        EraOpens(c, d, id, ev.owner, ev.cpu, ev.memGB, ev.now, ev.hook, b.st.queue + fee);
      } else {
        assert b.st.queue + [] == b.st.queue;
      }
    }
  }

  /**
   * Exactly when a create leaves its sandbox's books right: it has no open session, or the new session is
   * written over it, or nothing was queued.
   */
  lemma CreateKeepsLawIffOrderly(c: Config, b: Book, ev: Event)
    requires ev.Create? && ValidConfig(c) && LawOf(c, b, ev.id)
    ensures LawOf(c, Step(c, b, ev), ev.id) <==>
            ev.id !in b.st.sessions || ev.hook.stored || Queued(c, ev) == []
  {
    if ev.id !in b.st.sessions || ev.hook.stored || Queued(c, ev) == [] {
      CreateKeeps(c, b, ev, ev.id);
    } else {
      UnwrittenCreateBreaks(c, b, ev);
    }
  }

  lemma UnwrittenCreateBreaks(c: Config, b: Book, ev: Event)
    requires ev.Create? && c.interval > 0 && EraLaw(c, b, ev.id) && !ev.hook.stored && Queued(c, ev) != []
    ensures ev.id in Step(c, b, ev).st.sessions && !EraLaw(c, Step(c, b, ev), ev.id)
  {
    hide Mine, VouchersOf, Chained, ClockAfter, ComputePrice, RateOf;
    var d, id := Step(c, b, ev), ev.id;
    var m := b.eras[id].mark;
    assert d.st.queue == b.st.queue + Queued(c, ev);
    assert d.st.queue[m..] == b.st.queue[m..] + Queued(c, ev);
    MineAppend(b.st.queue[m..], Queued(c, ev), id);
    ChargeIsFor(id, ev.owner, ComputePrice(c, ev.cpu, ev.memGB), ev.now, ev.now + c.interval);
    hide ChargeFor;
    MineOfOne(Queued(c, ev), id, id);
  }

  lemma StartKeeps(c: Config, b: Book, ev: Event, id: string)
    requires ValidConfig(c) && LawOf(c, b, id) && ev.Start?
    ensures LawOf(c, Step(c, b, ev), id)
  {
    var d := Step(c, b, ev);
    var first := FirstPeriod(c, ev.id, ev.owner, ev.cpu, ev.memGB, ev.now, ev.hook);
    var more := if Opens(b.st, ev.id, ev.hook) then first else [];
    assert d.st.queue == b.st.queue + more;
    if id in d.st.sessions {
      if id != ev.id {
        OtherKeeps(c, b, d, id, ev.id, more);
      } else if id !in b.st.sessions {
        EraOpens(c, d, id, ev.owner, ev.cpu, ev.memGB, ev.now, ev.hook, b.st.queue);
      }
    }
  }

  /** Every run keeps the law of a sandbox, as long as it is orderly for that one. */
  lemma {:induction false} RunKeeps(c: Config, b: Book, events: seq<Event>, id: string)
    requires ValidConfig(c) && LawOf(c, b, id) && OrderlyRun(c, b, events, id)
    ensures LawOf(c, Run(c, b, events), id)
    decreases events
  {
    if events != [] {
      var ev := events[0];
      match ev {
        case TickAt(order, now, live, f) =>
          ScanIsFresh(b.st, order, id);
          TickKeeps(c, b, Scan(b.st, order), 0, now, live, f, id);
        case Stop(_, _) =>
        case Create(_, _, _, _, _, _) => CreateKeeps(c, b, ev, id);
        case Start(_, _, _, _, _, _) => StartKeeps(c, b, ev, id);
      }
      RunKeeps(c, Step(c, b, ev), events[1..], id);
    }
  }
}
