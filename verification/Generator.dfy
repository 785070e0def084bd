/**
The event handler and the voucher generator as the program runs them: hooks and
ticks that push to a queue and write session hashes in place. Each method leaves
the state that the function of the same name in Ledger.dfy describes.
*/
module Generator {
  import opened Arithmetic
  import opened Wrappers
  import opened ReservedKey
  import opened Ledger

  /** A fee is zero exactly when the price is. */
  lemma NoFee(price: int, interval: int, intervals: int)
    requires interval > 0 && intervals >= 1
    ensures price * (interval * intervals) == 0 <==> price == 0
  {
    assert interval * intervals > 0;
    if price > 0 { assert price * (interval * intervals) > 0; }
    if price < 0 { assert (-price) * (interval * intervals) > 0; }
  }

  /** The catch-up ends here, before anything more is queued. */
  predicate Stops(rate: int, overdue: int, k: nat, at: nat, f: Fates) {
    overdue <= 0 || k >= CATCHUP_MAX_VOUCHERS_PER_TICK || (rate != 0 && f.pushed(at, k).Refused?)
  }

  /** What the rest of the catch-up loop makes of the queue and the sessions. */
  function Rest(c: Config, x: Scanned, price: int, queue: seq<Voucher>, sessions: map<string, Session>,
                next: int, overdue: int, k: nat, at: nat, f: Fates): (r: (seq<Voucher>, map<string, Session>))
    decreases CATCHUP_MAX_VOUCHERS_PER_TICK - k
  {
    if Stops(price, overdue, k, at, f) then (queue, sessions)
    else
      var end := next + c.interval * Chunk(overdue);
      var queued := queue + ChargeFor(x.id, x.session.owner, price, next, end);
      if Strays(price, at, k, f) then (queued, sessions)
      else if f.written(at, k).Lost? then (queued, SetClock(sessions, x.id, end))
      else Rest(c, x, price, queued, SetClock(sessions, x.id, end), end, overdue - Chunk(overdue), k + 1, at, f)
  }

  lemma RestStep(c: Config, x: Scanned, price: int, queue: seq<Voucher>, sessions: map<string, Session>,
                 next: int, overdue: int, k: nat, at: nat, f: Fates)
    ensures Rest(c, x, price, queue, sessions, next, overdue, k, at, f) ==
            if Stops(price, overdue, k, at, f) then (queue, sessions)
            else
              var end := next + c.interval * Chunk(overdue);
              var queued := queue + ChargeFor(x.id, x.session.owner, price, next, end);
              if Strays(price, at, k, f) then (queued, sessions)
              else if f.written(at, k).Lost? then (queued, SetClock(sessions, x.id, end))
              else Rest(c, x, price, queued, SetClock(sessions, x.id, end), end, overdue - Chunk(overdue), k + 1, at, f)
  {
    hide ChargeFor, SetClock;
  }

  lemma CatchUpStep(c: Config, rate: int, next: int, overdue: int, k: nat, at: nat, f: Fates)
    ensures CatchUp(c, rate, next, overdue, k, at, f) ==
            if Stops(rate, overdue, k, at, f) then []
            else
              var end := next + c.interval * Chunk(overdue);
              [Window(next, end, !Strays(rate, at, k, f))] +
              if Strays(rate, at, k, f) || f.written(at, k).Lost? then []
              else CatchUp(c, rate, end, overdue - Chunk(overdue), k + 1, at, f)
  {
    hide Chunk;
  }

  /** The vouchers of some windows, first window first. */
  function Charges(x: Scanned, price: int, ws: seq<Window>): seq<Voucher> {
    if ws == [] then []
    else ChargeFor(x.id, x.session.owner, price, ws[0].start, ws[0].end) + Charges(x, price, ws[1..])
  }

  lemma {:induction false} ChargesSnoc(x: Scanned, price: int, ws: seq<Window>, w: Window)
    ensures Charges(x, price, ws + [w]) ==
            Charges(x, price, ws) + ChargeFor(x.id, x.session.owner, price, w.start, w.end)
  {
    if ws == [] {
      assert ws + [w] == [w] && [w][1..] == [];
    } else {
      assert (ws + [w])[1..] == ws[1..] + [w];
      ChargesSnoc(x, price, ws[1..], w);
    }
  }

  lemma {:induction false} ChargesAreVouchers(x: Scanned, price: int, ws: seq<Window>)
    ensures Charges(x, price, ws) == VouchersOf(x.id, x.session.owner, price, ws)
  {
    if ws != [] {
      var last := |ws| - 1;
      assert ws == ws[..last] + [ws[last]];
      ChargesSnoc(x, price, ws[..last], ws[last]);
      ChargesAreVouchers(x, price, ws[..last]);
    }
  }

  lemma ThenCharges(queue: seq<Voucher>, x: Scanned, price: int, w: Window, later: seq<Window>)
    ensures queue + Charges(x, price, [w] + later) ==
            queue + ChargeFor(x.id, x.session.owner, price, w.start, w.end) + Charges(x, price, later)
  {
    assert ([w] + later)[1..] == later;
  }

  lemma NoCharges(queue: seq<Voucher>, x: Scanned, price: int)
    ensures queue + Charges(x, price, []) == queue
  {
  }

  /** The loop queues the vouchers of the catch-up's windows ... */
  lemma {:induction false} RestQueue(c: Config, x: Scanned, price: int, queue: seq<Voucher>,
                                     sessions: map<string, Session>,
                                     next: int, overdue: int, k: nat, at: nat, f: Fates)
    ensures Rest(c, x, price, queue, sessions, next, overdue, k, at, f).0 ==
            queue + Charges(x, price, CatchUp(c, price, next, overdue, k, at, f))
    decreases CATCHUP_MAX_VOUCHERS_PER_TICK - k
  {
    hide ChargeFor, Chunk, Rest, CatchUp, Charges, SetClock;
    RestStep(c, x, price, queue, sessions, next, overdue, k, at, f);
    CatchUpStep(c, price, next, overdue, k, at, f);
    if Stops(price, overdue, k, at, f) {
      NoCharges(queue, x, price);
    } else {
      var end := next + c.interval * Chunk(overdue);
      var queued := queue + ChargeFor(x.id, x.session.owner, price, next, end);
      if Strays(price, at, k, f) || f.written(at, k).Lost? {
        NoCharges(queued, x, price);
        ThenCharges(queue, x, price, Window(next, end, !Strays(price, at, k, f)), []);
      } else {
        RestQueue(c, x, price, queued, SetClock(sessions, x.id, end), end, overdue - Chunk(overdue), k + 1, at, f);
        ThenCharges(queue, x, price, Window(next, end, true),
                    CatchUp(c, price, end, overdue - Chunk(overdue), k + 1, at, f));
      }
    }
  }

  /** ... and leaves the clock where they leave it. */
  lemma {:induction false} RestSessions(c: Config, x: Scanned, price: int, queue: seq<Voucher>,
                                        sessions: map<string, Session>,
                                        next: int, overdue: int, k: nat, at: nat, f: Fates)
    ensures var ws := CatchUp(c, price, next, overdue, k, at, f);
      Rest(c, x, price, queue, sessions, next, overdue, k, at, f).1 ==
      if Advances(ws) then SetClock(sessions, x.id, ClockAfter(next, ws)) else sessions
    decreases CATCHUP_MAX_VOUCHERS_PER_TICK - k
  {
    if !Stops(price, overdue, k, at, f) && !Strays(price, at, k, f) {
      var end := next + c.interval * Chunk(overdue);
      var queued := queue + ChargeFor(x.id, x.session.owner, price, next, end);
      var w := Window(next, end, true);
      if f.written(at, k).Lost? {
        assert [w] + [] == [w];
        ClockAfterCons(next, w, []);
      } else {
        var later := CatchUp(c, price, end, overdue - Chunk(overdue), k + 1, at, f);
        RestSessions(c, x, price, queued, SetClock(sessions, x.id, end), end, overdue - Chunk(overdue), k + 1, at, f);
        ClockAfterCons(next, w, later);
        SetClockTwice(sessions, x.id, end, ClockAfter(end, later));
        StandsStill(c, price, end, overdue - Chunk(overdue), k + 1, at, f);
      }
    }
  }

  lemma StandsStill(c: Config, rate: int, next: int, overdue: int, k: nat, at: nat, f: Fates)
    ensures var ws := CatchUp(c, rate, next, overdue, k, at, f);
      !Advances(ws) ==> ClockAfter(next, ws) == next
  {
    var ws := CatchUp(c, rate, next, overdue, k, at, f);
    if ws != [] && !ws[0].recorded {
      assert |ws| == 1 && ws[..0] == [];
    }
  }

  lemma SetClockTwice(sessions: map<string, Session>, id: string, first: int, second: int)
    ensures SetClock(SetClock(sessions, id, first), id, second) == SetClock(sessions, id, second)
  {
  }

  class Billing {
    const config: Config
    var sessions: map<string, Session>
    var queue: seq<Voucher>
    var skips: map<string, nat>
    var markers: set<string>

    constructor (config: Config)
      ensures this.config == config && Current() == State(map[], [], map[], {})
    {
      this.config := config;
      sessions, queue, skips, markers := map[], [], map[], {};
    }

    /** The ledger as a value. */
    function Current(): State
      reads this
    {
      State(sessions, queue, skips, markers)
    }

    /** emitPeriodVoucher: `None` when the push does not answer, else the new NextVoucherAt. */
    method EmitPeriodVoucher(id: string, owner: string, price: int, periodStart: int, intervals: int, pushed: Reply)
      returns (next: Option<int>)
      requires config.interval > 0 && intervals >= 1
      modifies this`queue
      ensures next == if price == 0 || pushed.Answered? then Some(periodStart + config.interval * intervals) else None
      ensures var end := periodStart + config.interval * intervals;
        && queue == old(queue) +
                    (if price != 0 && pushed.Refused? then [] else ChargeFor(id, owner, price, periodStart, end))
        && queue == old(queue) +
                    if price == 0 || pushed.Refused? then []
                    else [Voucher(id, owner, price * (config.interval * intervals), periodStart, end)]
    {
      var end := periodStart + config.interval * intervals;
      var fee := price * (config.interval * intervals);
      assert end - periodStart == config.interval * intervals;
      NoFee(price, config.interval, intervals);
      assert queue == queue + [];
      if fee == 0 {
        return Some(end);
      }
      if pushed.Refused? {
        return None;
      }
      queue := queue + [Voucher(id, owner, fee, periodStart, end)];
      return if pushed.Lost? then None else Some(end);
    }

    /** OnCreate; in the end it releases what the create gate reserved, if Redis takes the command. */
    method OnCreate(id: string, owner: string, cpu: nat, memGB: nat, now: int, hook: HookFates, counter: Counter,
                    released: bool)
      requires config.interval > 0 && 0 <= ValueAt(counter.key, now) <= INT64_MAX
      modifies this`queue, this`sessions, counter
      ensures Current() == Ledger.OnCreate(config, old(Current()), id, owner, cpu, memGB, now, hook)
      ensures var price, end := ComputePrice(config, cpu, memGB), now + config.interval;
        && queue == old(queue) + (if hook.feeQueued then [Voucher(id, owner, config.createFee, now, now)] else [])
                    + (if price == 0 || hook.periodPushed.Refused? then []
                       else [Voucher(id, owner, price * config.interval, now, end)])
        && sessions == if !hook.stored then old(sessions)
                       else old(sessions)[id := Session(
                                                  owner, if price == 0 || hook.periodPushed.Answered? then end else now,
                                                  Some(price))]
      ensures var reserved := config.createFee + IntervalCost(config, cpu, memGB);
        counter.key == if released then AfterRelease(old(counter.key), reserved, now) else old(counter.key)
    {
      if hook.feeQueued {
        queue := queue + [Voucher(id, owner, config.createFee, now, now)];
      }
      assert queue == old(queue) + CreateFee(config, id, owner, now, hook);
      var price := ComputePrice(config, cpu, memGB);
      var nextVoucherAt := now;
      var emitted := EmitPeriodVoucher(id, owner, price, now, 1, hook.periodPushed);
      if emitted.Some? {
        nextVoucherAt := emitted.value;
      }
      if hook.stored {
        sessions := sessions[id := Session(owner, nextVoucherAt, Some(price))];
      }
      ReservedIsReleased(config, cpu, memGB);
      if released {
        counter.Release(config.createFee + price * config.interval, now);
      }
    }

    /** OnStart; it releases what the start gate reserved only if it gets as far as opening the session. */
    method OnStart(id: string, owner: string, cpu: nat, memGB: nat, now: int, hook: HookFates, counter: Counter,
                   released: bool)
      requires config.interval > 0 && 0 <= ValueAt(counter.key, now) <= INT64_MAX
      modifies this`queue, this`sessions, counter
      ensures Current() == Ledger.OnStart(config, old(Current()), id, owner, cpu, memGB, now, hook)
      ensures var price, end := ComputePrice(config, cpu, memGB), now + config.interval;
        var tries := hook.looked && id !in old(sessions);
        && queue == old(queue) + (if !tries || price == 0 || hook.periodPushed.Refused? then []
                                  else [Voucher(id, owner, price * config.interval, now, end)])
        && sessions == if tries && (price == 0 || hook.periodPushed.Answered?) && hook.stored
                       then old(sessions)[id := Session(owner, end, Some(price))] else old(sessions)
      ensures counter.key == if released && Opens(old(Current()), id, hook) && FirstCharged(config, cpu, memGB, hook)
                             then AfterRelease(old(counter.key), IntervalCost(config, cpu, memGB), now)
                             else old(counter.key)
    {
      if !hook.looked {
        return;
      }
      if id in sessions {
        return;
      }
      var price := ComputePrice(config, cpu, memGB);
      var emitted := EmitPeriodVoucher(id, owner, price, now, 1, hook.periodPushed);
      if emitted.None? {
        return;
      }
      if hook.stored {
        sessions := sessions[id := Session(owner, emitted.value, Some(price))];
      }
      ReservedIsReleased(config, cpu, memGB);
      if released {
        counter.Release(price * config.interval, now);
      }
    }

    method OnStop(id: string, deleted: bool)
      modifies this`sessions
      ensures Current() == Ledger.OnStop(old(Current()), id, deleted)
      ensures id in sessions <==> id in old(sessions) && !deleted
      ensures sessions - {id} == old(sessions) - {id}
    {
      if deleted {
        sessions := sessions - {id};
      }
    }

    /** closePhantomSession: a failed delete of the session leaves the marker too. */
    method ClosePhantomSession(id: string, deleted: bool, unmarked: bool)
      modifies this`sessions, this`markers
      ensures Current() == Closed(old(Current()), id, deleted, unmarked)
      ensures id in sessions <==> id in old(sessions) && !deleted
      ensures id in markers <==> id in old(markers) && !(deleted && unmarked)
      ensures sessions - {id} == old(sessions) - {id} && markers - {id} == old(markers) - {id}
    {
      if !deleted {
        return;
      }
      sessions := sessions - {id};
      if unmarked {
        markers := markers - {id};
      }
      assert markers == old(markers) - if unmarked then {id} else {};
    }

    /** The chunked catch-up loop: one voucher and one session write at a time, until one of them fails. */
    method CatchUpLoop(x: Scanned, price: int, periods: int, at: nat, f: Fates)
      requires config.interval > 0
      modifies this`queue, this`sessions
      ensures (queue, sessions) == Rest(config, x, price, old(queue), old(sessions), x.session.next, periods, 0, at, f)
    {
      hide ChargeFor, Rest;
      var overdue, periodStart := periods, x.session.next;
      var emitted := 0;
      while overdue > 0 && emitted < CATCHUP_MAX_VOUCHERS_PER_TICK
        invariant emitted >= 0
        invariant Rest(config, x, price, queue, sessions, periodStart, overdue, emitted, at, f) ==
                  Rest(config, x, price, old(queue), old(sessions), x.session.next, periods, 0, at, f)
        decreases CATCHUP_MAX_VOUCHERS_PER_TICK - emitted
      {
        RestStep(config, x, price, queue, sessions, periodStart, overdue, emitted, at, f);
        var chunk := overdue;
        if chunk > CATCHUP_CHUNK_INTERVALS {
          chunk := CATCHUP_CHUNK_INTERVALS;
        }
        assert queue + [] == queue;
        var next := EmitPeriodVoucher(x.id, x.session.owner, price, periodStart, chunk, f.pushed(at, emitted));
        if next.None? {
          return;
        }
        if f.written(at, emitted).Refused? {
          return;
        }
        var session := if x.id in sessions then sessions[x.id] else Session("", 0, None);
        sessions := sessions[x.id := session.(next := next.value)];
        if f.written(at, emitted).Lost? {
          return;
        }
        periodStart := next.value;
        overdue := overdue - chunk;
        emitted := emitted + 1;
      }
      RestStep(config, x, price, queue, sessions, periodStart, overdue, emitted, at, f);
    }

    /** One session of the tick: skip it, count it as absent and perhaps close it, or catch it up. */
    method VisitSession(x: Scanned, at: nat, now: int, live: Listing, f: Fates)
      requires config.interval > 0
      modifies this
      ensures Current() == Visit(config, old(Current()), x, at, now, live, f)
    {
      if now < x.session.next {
        return;
      }
      if live.Some? && x.id !in live.value {
        var seen := (if x.id in skips then skips[x.id] else 0) + 1;
        skips := skips[x.id := seen];
        if seen >= PHANTOM_SKIPS_BEFORE_CONFIRM && f.gone(at) {
          ClosePhantomSession(x.id, f.deleted(at), f.unmarked(at));
          skips := skips - {x.id};
          assert skips == old(skips) - {x.id};
        }
        return;
      }
      skips := skips - {x.id};
      var price := config.flat as int;
      if x.session.price.Some? && x.session.price.value > 0 {
        price := x.session.price.value;
      }
      var overdue := (now - x.session.next) / config.interval + 1;
      assert price == RateOf(config, x.session) && overdue == Overdue(config, x.session.next, now);
      ghost var ws := CatchUp(config, price, x.session.next, overdue, 0, at, f);
      RestQueue(config, x, price, queue, sessions, x.session.next, overdue, 0, at, f);
      RestSessions(config, x, price, queue, sessions, x.session.next, overdue, 0, at, f);
      ChargesAreVouchers(x, price, ws);
      CatchUpLoop(x, price, overdue, at, f);
    }

    /** runGeneration: every session of one scan, in the scan's order. */
    method RunGeneration(order: seq<string>, now: int, live: Listing, f: Fates)
      requires config.interval > 0
      modifies this
      ensures Current() == Tick(config, old(Current()), order, now, live, f)
    {
      var scan := ScanAllSessions(order);
      for i := 0 to |scan|
        invariant Visits(config, Current(), scan, i, now, live, f) == Tick(config, old(Current()), order, now, live, f)
      {
        VisitSession(scan[i], i, now, live, f);
      }
    }

    /** ScanAllSessions over the keys the cursor returns: keys that are gone by then are skipped. */
    method ScanAllSessions(order: seq<string>) returns (scan: seq<Scanned>)
      ensures scan == Scan(Current(), order)
    {
      scan := [];
      for i := 0 to |order|
        invariant scan == Scan(Current(), order[..i])
      {
        assert order[..i + 1][..i] == order[..i];
        if order[i] in sessions {
          scan := scan + [Scanned(order[i], sessions[order[i]])];
        }
      }
      assert order[..|order|] == order;
    }
  }
}
