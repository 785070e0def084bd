/**
The billing ledger: sessions that are pre-charged in fixed intervals, the queue of
vouchers they are charged through, and the generator that bills what has come due.

This module says what each operation does to the ledger, as functions; the class
`Billing` in Generator.dfy does the same with loops over fields.
*/
module Ledger {
  import opened Wrappers

  const CATCHUP_CHUNK_INTERVALS := 60
  const CATCHUP_MAX_VOUCHERS_PER_TICK := 10
  const PHANTOM_SKIPS_BEFORE_CONFIRM := 10

  /** Prices are what the startup leaves: see `StartupPrices`. Amounts are in the smallest unit. */
  datatype Config = Config(interval: int, flat: nat, perCpu: nat, perMemGB: nat, createFee: nat)

  ghost predicate ValidConfig(c: Config) {
    c.interval > 0 && (c.perCpu > 0 || c.perMemGB > 0 ==> c.flat == 0)
  }

  /** Startup: the flat price is read only when both per-resource prices are zero. */
  function StartupPrices(interval: int, perCpu: nat, perMemGB: nat, envFlat: nat, createFee: nat): Config {
    Config(interval, if perCpu == 0 && perMemGB == 0 then envFlat else 0, perCpu, perMemGB, createFee)
  }

  /** computePrice: the rate a session opens at. */
  function ComputePrice(c: Config, cpu: nat, memGB: nat): nat {
    if c.perCpu > 0 || c.perMemGB > 0 then cpu * c.perCpu + memGB * c.perMemGB else c.flat
  }

  /** intervalCost: what the gates reserve for one interval. */
  function IntervalCost(c: Config, cpu: nat, memGB: nat): int {
    if c.perCpu > 0 || c.perMemGB > 0 then (c.perCpu * cpu + c.perMemGB * memGB) * c.interval else c.flat * c.interval
  }

  /**
   * The price a session opens at, from what the environment says: so much a core and so much a gigabyte, and the flat
   * price only when both are free.
   */
  lemma OpeningPrice(interval: int, perCpu: nat, perMemGB: nat, envFlat: nat, fee: nat, cpu: nat, memGB: nat)
    ensures var c := StartupPrices(interval, perCpu, perMemGB, envFlat, fee);
      && c.interval == interval && c.createFee == fee
      && (perCpu == 0 && perMemGB == 0 ==> ComputePrice(c, cpu, memGB) == envFlat)
      && (perCpu > 0 || perMemGB > 0 ==>
            && ComputePrice(c, 0, 0) == 0
            && ComputePrice(c, cpu + 1, memGB) == ComputePrice(c, cpu, memGB) + perCpu
            && ComputePrice(c, cpu, memGB + 1) == ComputePrice(c, cpu, memGB) + perMemGB)
  {
    assert (cpu + 1) * perCpu == cpu * perCpu + perCpu && (memGB + 1) * perMemGB == memGB * perMemGB + perMemGB;
  }

  /** What the gates reserve for a create or a start is what its hook releases, for equal resources. */
  lemma ReservedIsReleased(c: Config, cpu: nat, memGB: nat)
    ensures IntervalCost(c, cpu, memGB) == ComputePrice(c, cpu, memGB) * c.interval
  {
    assert c.perCpu * cpu == cpu * c.perCpu && c.perMemGB * memGB == memGB * c.perMemGB;
  }

  /** The generator's rate: the session's own price when it has a positive one, else the flat price. */
  function RateOf(c: Config, s: Session): int {
    if s.price.Some? && s.price.value > 0 then s.price.value else c.flat
  }

  /** A session hash. `price` is `None` for an empty or unreadable field. */
  datatype Session = Session(owner: string, next: int, price: Option<int>)

  /** A queued voucher: the fee and the window its usage hash commits to. A create fee has an empty window. */
  datatype Voucher = Voucher(sandbox: string, owner: string, fee: int, start: int, end: int)

  datatype State = State(sessions: map<string, Session>, queue: seq<Voucher>, skips: map<string, nat>,
                         markers: set<string>)

  /**
   * How the calls of one generator tick turn out: pushes and session writes by position in the scan and
   * voucher number; confirmations and the deletions of session and marker by position.
   */
  datatype Fates = Fates(pushed: (nat, nat) -> Reply, written: (nat, nat) -> Reply,
                         gone: nat -> bool, deleted: nat -> bool, unmarked: nat -> bool)

  // ---------------------------------------------------------------------------
  // One session's catch-up
  // ---------------------------------------------------------------------------

  /** A window that was billed; `recorded` when the session's clock was moved past it. */
  datatype Window = Window(start: int, end: int, recorded: bool)

  function Overdue(c: Config, next: int, now: int): int
    requires c.interval > 0 && next <= now
  {
    (now - next) / c.interval + 1
  }

  /** The periods of one voucher. */
  function Chunk(overdue: int): int {
    if overdue > CATCHUP_CHUNK_INTERVALS then CATCHUP_CHUNK_INTERVALS else overdue
  }

  /** A window is billed and the clock does not know: its push lost its reply, or its session write failed. */
  predicate Strays(rate: int, at: nat, k: nat, f: Fates) {
    (rate != 0 && f.pushed(at, k).Lost?) || f.written(at, k).Refused?
  }

  /**
   * The chunked catch-up from voucher `k` of this tick on: it stops at the first push or write that does not
   * answer. A window costs nothing, and then needs no push, exactly when the rate is zero.
   */
  function CatchUp(c: Config, rate: int, next: int, overdue: int, k: nat, at: nat, f: Fates): (ws: seq<Window>)
    decreases CATCHUP_MAX_VOUCHERS_PER_TICK - k
  {
    if overdue <= 0 || k >= CATCHUP_MAX_VOUCHERS_PER_TICK then []
    else
      var end := next + c.interval * Chunk(overdue);
      if rate != 0 && f.pushed(at, k).Refused? then []
      else if Strays(rate, at, k, f) then [Window(next, end, false)]
      else if f.written(at, k).Lost? then [Window(next, end, true)]
      else [Window(next, end, true)] + CatchUp(c, rate, end, overdue - Chunk(overdue), k + 1, at, f)
  }

  /** Where the windows leave the session's clock. */
  function ClockAfter(next: int, ws: seq<Window>): int {
    if ws == [] then next
    else if ws[|ws| - 1].recorded then ws[|ws| - 1].end
    else ClockAfter(next, ws[..|ws| - 1])
  }

  lemma ClockAfterCons(next: int, w: Window, ws: seq<Window>)
    requires w.recorded
    ensures ClockAfter(next, [w] + ws) == ClockAfter(w.end, ws)
  {
    if ws == [] {
      assert [w] + ws == [w];
    } else {
      assert ([w] + ws)[..|ws|] == [w] + ws[..|ws| - 1];
      ClockAfterCons(next, w, ws[..|ws| - 1]);
    }
  }

  /** Whether a catch-up moves the clock at all: only its last window can be unrecorded. */
  predicate Advances(ws: seq<Window>) {
    ws != [] && ws[0].recorded
  }

  /** The vouchers of the windows: a window that costs nothing is billed without one. */
  function VouchersOf(id: string, owner: string, rate: int, ws: seq<Window>): seq<Voucher> {
    if ws == [] then []
    else VouchersOf(id, owner, rate, ws[..|ws| - 1]) + ChargeFor(id, owner, rate, ws[|ws| - 1].start, ws[|ws| - 1].end)
  }

  /** emitPeriodVoucher's voucher, or none when the fee is zero. */
  function ChargeFor(id: string, owner: string, rate: int, start: int, end: int): seq<Voucher> {
    if rate * (end - start) == 0 then [] else [Voucher(id, owner, rate * (end - start), start, end)]
  }

  /** UpdateNextVoucherAt: HSET on a missing key creates a hash with only the clock in it. */
  function SetClock(sessions: map<string, Session>, id: string, next: int): map<string, Session> {
    sessions[id := if id in sessions then sessions[id].(next := next) else Session("", next, None)]
  }

  // ---------------------------------------------------------------------------
  // One generator tick
  // ---------------------------------------------------------------------------

  /** A scanned session: its id and the copy the scan took. */
  datatype Scanned = Scanned(id: string, session: Session)

  /** The runtime's listing: `None` when there is no gate or the listing failed. */
  type Listing = Option<set<string>>

  predicate Due(s: Session, now: int) {
    s.next <= now
  }

  predicate Missing(id: string, live: Listing) {
    live.Some? && id !in live.value
  }

  function SkipsOf(st: State, id: string): nat {
    if id in st.skips then st.skips[id] else 0
  }

  /** The windows the tick bills for the session at position `at` of the scan. */
  function Billed(c: Config, x: Scanned, at: nat, now: int, live: Listing, f: Fates): seq<Window>
    requires c.interval > 0
  {
    if !Due(x.session, now) || Missing(x.id, live) then []
    else CatchUp(c, RateOf(c, x.session), x.session.next, Overdue(c, x.session.next, now), 0, at, f)
  }

  /** The tick gives up on the session: absent often enough and confirmed gone. */
  predicate Closes(st: State, x: Scanned, at: nat, now: int, live: Listing, f: Fates) {
    Due(x.session, now) && Missing(x.id, live) && SkipsOf(st, x.id) + 1 >= PHANTOM_SKIPS_BEFORE_CONFIRM && f.gone(at)
  }

  /** closePhantomSession: the marker is deleted only after the session, and its own failure is ignored. */
  function Closed(st: State, id: string, deleted: bool, unmarked: bool): State {
    if !deleted then st
    else st.(sessions := st.sessions - {id}, markers := st.markers - if unmarked then {id} else {})
  }

  function Visit(c: Config, st: State, x: Scanned, at: nat, now: int, live: Listing, f: Fates): State
    requires c.interval > 0
  {
    if !Due(x.session, now) then st
    else if Closes(st, x, at, now, live, f) then
      Closed(st, x.id, f.deleted(at), f.unmarked(at)).(skips := st.skips - {x.id})
    else if Missing(x.id, live) then st.(skips := st.skips[x.id := SkipsOf(st, x.id) + 1])
    else
      var ws := Billed(c, x, at, now, live, f);
      st.(skips := st.skips - {x.id},
          queue := st.queue + VouchersOf(x.id, x.session.owner, RateOf(c, x.session), ws),
          sessions := if Advances(ws) then SetClock(st.sessions, x.id, ClockAfter(x.session.next, ws)) else st.sessions)
  }

  /** The sessions of the scan from position `at` on, one after the other. */
  function Visits(c: Config, st: State, scan: seq<Scanned>, at: nat, now: int, live: Listing, f: Fates): State
    requires c.interval > 0 && at <= |scan|
    decreases |scan| - at
  {
    if at == |scan| then st else Visits(c, Visit(c, st, scan[at], at, now, live, f), scan, at + 1, now, live, f)
  }

  /** ScanAllSessions: the sessions under the keys of `order`, as they are when the scan reads them. */
  function Scan(st: State, order: seq<string>): (scan: seq<Scanned>)
    ensures forall x | x in scan :: x.id in order && x.id in st.sessions && x.session == st.sessions[x.id]
  {
    if order == [] then []
    else Scan(st, order[..|order| - 1]) +
         var id := order[|order| - 1]; if id in st.sessions then [Scanned(id, st.sessions[id])] else []
  }

  function Tick(c: Config, st: State, order: seq<string>, now: int, live: Listing, f: Fates): State
    requires c.interval > 0
  {
    Visits(c, st, Scan(st, order), 0, now, live, f)
  }

  // ---------------------------------------------------------------------------
  // The lifecycle hooks
  // ---------------------------------------------------------------------------

  /**
   * How the Redis calls of a hook turn out: OnStart's look for a session, whether the create fee is queued, the
   * first period's push, and whether the session is written.
   */
  datatype HookFates = HookFates(looked: bool, feeQueued: bool, periodPushed: Reply, stored: bool)

  /** The first period is charged, as far as the hook can tell, when its push answers or costs nothing. */
  predicate FirstCharged(c: Config, cpu: nat, memGB: nat, f: HookFates) {
    ComputePrice(c, cpu, memGB) == 0 || f.periodPushed.Answered?
  }

  function FirstPeriod(c: Config, id: string, owner: string, cpu: nat, memGB: nat, now: int,
                       f: HookFates): seq<Voucher> {
    if f.periodPushed.Refused? then [] else ChargeFor(id, owner, ComputePrice(c, cpu, memGB), now, now + c.interval)
  }

  function CreateFee(c: Config, id: string, owner: string, now: int, f: HookFates): seq<Voucher> {
    if f.feeQueued then [Voucher(id, owner, c.createFee, now, now)] else []
  }

  /** OnCreate: a failed push never keeps the session from opening; it only leaves the first period due. */
  function OnCreate(c: Config, st: State, id: string, owner: string, cpu: nat, memGB: nat, now: int,
                    f: HookFates): State {
    var next := if FirstCharged(c, cpu, memGB, f) then now + c.interval else now;
    st.(queue := st.queue + CreateFee(c, id, owner, now, f) + FirstPeriod(c, id, owner, cpu, memGB, now, f),
        sessions := if f.stored
                    then st.sessions[id := Session(owner, next, Some(ComputePrice(c, cpu, memGB)))] else st.sessions)
  }

  /** OnStart goes on to charge and open only when it has looked and found no session. */
  predicate Opens(st: State, id: string, f: HookFates) {
    f.looked && id !in st.sessions
  }

  /** OnStart: a push that does not answer opens no session, even if its voucher is queued. */
  function OnStart(c: Config, st: State, id: string, owner: string, cpu: nat, memGB: nat, now: int,
                   f: HookFates): State {
    if !Opens(st, id, f) then st
    else st.(queue := st.queue + FirstPeriod(c, id, owner, cpu, memGB, now, f),
             sessions := if FirstCharged(c, cpu, memGB, f) && f.stored
                         then st.sessions[id := Session(owner, now + c.interval, Some(ComputePrice(c, cpu, memGB)))]
                         else st.sessions)
  }

  /** OnStop, OnDelete and OnArchive. */
  function OnStop(st: State, id: string, deleted: bool): State {
    if deleted then st.(sessions := st.sessions - {id}) else st
  }
}
