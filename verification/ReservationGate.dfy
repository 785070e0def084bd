/**
The balance gate of create and start requests: read the debt, read the balance,
reserve, judge on the total the reservation returned, admit or roll back.

Every request of one (user, provider) pair runs these steps against the same
counter, in any interleaving with deposits, settlements and the generator. One
event below is one atomic command of one of them.
*/
module ReservationGate {
  import opened Arithmetic
  import opened Wrappers
  import opened ReservedKey

  /**
   * What became of a reservation. `Closed` is one that was released, or that nobody will release any more: its
   * handler returned without a release, or the release or the whole process failed.
   */
  datatype Status = Pending | Refused | Admitted | Closed

  /**
   * A reservation made: its amount, the total it returned, the debt and balance it is judged on, what the
   * generator had billed when it read the debt, what of the amount its hook has queued as vouchers so far, and
   * whether it was ever admitted.
   */
  datatype Entry = Entry(
    amount: nat, total: int, owed: int, seen: int, base: nat, queued: nat, granted: bool, status: Status)

  /**
   * A request on its way to its reservation: it has read the parked debt, then the queued, then the balance.
   * `missed` is what was queued for each reservation after it read the queue, and `base` what the generator had
   * billed by then.
   */
  datatype Visit =
    | HeldRead(amount: nat, held: int)
    | OwedRead(amount: nat, owed: int, base: nat, missed: map<nat, nat>)
    | BalanceRead(amount: nat, owed: int, base: nat, missed: map<nat, nat>, seen: int)

  /**
   * balance, held and queued: the pair's money on chain, and what it owes in parked and in queued vouchers.
   * accrued: what the generator has billed since the start.
   * entries: the reservations in the order the counter took them.
   */
  datatype World = World(
    balance: int, held: int, queued: int, accrued: nat, key: Key, now: int, ttl: int,
    visits: map<nat, Visit>, entries: seq<Entry>)

  datatype Event =
    | Deposit(amount: nat)
    | Settle(amount: nat)
    | Park(amount: nat)
    | Unpark(amount: nat)
    | Accrue(amount: nat)
    | Pass(seconds: nat)
    | ReadHeld(id: nat, required: nat, up: bool)
    | ReadQueue(id: nat, up: bool)
    | ReadBalance(id: nat)
    | Reserve(id: nat)
    | ReadAgain(i: nat)
    | Judge(i: nat)
    | Enqueue(i: nat, fee: nat)
    | Release(i: nat)
    | Abandon(i: nat)

  function Debt(w: World): int {
    w.held + w.queued
  }

  /** The gate's verdict: what is left after the debt and everything reserved, this request included. */
  predicate Affordable(e: Entry) {
    e.seen - e.owed - e.total >= 0
  }

  /** The part of a reservation that its hook has turned into debt, and the part that it has not. */
  function Billed(e: Entry): nat {
    Min(e.queued, e.amount)
  }

  function Left(e: Entry): nat {
    e.amount - Billed(e)
  }

  function Step(w: World, ev: Event): World {
    match ev
    case Deposit(x) => w.(balance := w.balance + x)
    case Settle(x) =>
      // A voucher is charged only when the balance covers it; the charge leaves the debt with it.
      if x <= w.balance && x <= w.queued then w.(balance := w.balance - x, queued := w.queued - x) else w
    case Park(x) => if x <= w.queued then w.(held := w.held + x, queued := w.queued - x) else w
    case Unpark(x) => if x <= w.held then w.(held := w.held - x, queued := w.queued + x) else w
    case Accrue(x) => w.(queued := w.queued + x, accrued := w.accrued + x)
    case Pass(d) =>
      w.(now := w.now + d, key := if w.key.Held? && w.key.expiresAt <= w.now + d then Absent else w.key)
    // A debt that cannot be read counts as none.
    case ReadHeld(id, a, up) => if id in w.visits then w else At(w, id, HeldRead(a, if up then w.held else 0))
    case ReadQueue(id, up) =>
      if id !in w.visits || !w.visits[id].HeldRead? then w
      else
        var v := w.visits[id];
        At(w, id, OwedRead(v.amount, v.held + (if up then w.queued else 0), w.accrued, map[]))
    case ReadBalance(id) =>
      if id !in w.visits || !w.visits[id].OwedRead? then w
      else var v := w.visits[id]; At(w, id, BalanceRead(v.amount, v.owed, v.base, v.missed, w.balance))
    case Reserve(id) =>
      if id in w.visits && w.visits[id].BalanceRead? then
        var v := w.visits[id];
        match AfterReserve(w.key, v.amount, w.ttl, w.now)
        case None => w.(visits := w.visits - {id})
        case Some(k) =>
          w.(key := k, visits := w.visits - {id},
             entries := w.entries + [Entry(v.amount, k.amount, v.owed, v.seen, v.base, 0, false, Pending)])
      else w
    case ReadAgain(i) =>
      if i < |w.entries| && w.entries[i].status.Pending? then Put(w, i, w.entries[i].(seen := w.balance)) else w
    case Judge(i) =>
      if i >= |w.entries| || !w.entries[i].status.Pending? then w
      else if Affordable(w.entries[i]) then Put(w, i, w.entries[i].(status := Admitted, granted := true))
      else Put(w, i, w.entries[i].(status := Status.Refused))
    case Enqueue(i, x) =>
      if i < |w.entries| && w.entries[i].status.Admitted? && w.entries[i].queued + x <= w.entries[i].amount then
        var e := w.entries[i].(queued := w.entries[i].queued + x);
        Put(w.(queued := w.queued + x, visits := Noticed(w.visits, i, x)), i, e)
      else w
    case Release(i) =>
      if i < |w.entries| && Unreleased(w.entries[i]) && !w.entries[i].status.Pending? then
        Put(w.(key := AfterRelease(w.key, w.entries[i].amount, w.now)), i, w.entries[i].(status := Closed))
      else w
    case Abandon(i) => if i < |w.entries| then Put(w, i, w.entries[i].(status := Closed)) else w
  }

  function At(w: World, id: nat, v: Visit): World {
    w.(visits := w.visits[id := v])
  }

  function Put(w: World, i: nat, e: Entry): World
    requires i < |w.entries|
  {
    w.(entries := w.entries[i := e])
  }

  function Missed(missed: map<nat, nat>, i: nat): nat {
    if i in missed then missed[i] else 0
  }

  /** Everybody who has read the queue has missed the voucher just queued. */
  function Noticed(visits: map<nat, Visit>, i: nat, x: nat): map<nat, Visit> {
    map id | id in visits :: Notice(visits[id], i, x)
  }

  function Notice(v: Visit, i: nat, x: nat): Visit {
    if v.HeldRead? then v else v.(missed := v.missed[i := Missed(v.missed, i) + x])
  }

  function Run(w: World, events: seq<Event>): World
    decreases events
  {
    if events == [] then w else Run(Step(w, events[0]), events[1..])
  }

  // ---------------------------------------------------------------------------
  // Sums over the reservations
  // ---------------------------------------------------------------------------

  predicate Unreleased(e: Entry) {
    !e.status.Closed?
  }

  /**
   * Which amounts a sum takes: all that are unreleased, what of them is queued as debt, what admitted requests
   * may still queue, or what admitted and pending ones may.
   */
  datatype Part = InCounter | OfQueued | OfAdmitted | Open

  function Weight(e: Entry, part: Part): nat {
    match part
    case InCounter => if Unreleased(e) then e.amount else 0
    case OfQueued => if Unreleased(e) then Billed(e) else 0
    case OfAdmitted => if e.status.Admitted? then Left(e) else 0
    case Open => if e.status.Pending? || e.status.Admitted? then Left(e) else 0
  }

  /** The sum over the first `k` reservations. */
  function Sum(s: seq<Entry>, k: nat, part: Part): nat
    requires k <= |s|
  {
    if k == 0 then 0 else Sum(s, k - 1, part) + Weight(s[k - 1], part)
  }

  lemma SumFrame(s: seq<Entry>, t: seq<Entry>, k: nat, part: Part)
    requires k <= |s| && k <= |t| && forall i | 0 <= i < k :: Weight(s[i], part) == Weight(t[i], part)
    ensures Sum(s, k, part) == Sum(t, k, part)
  {
    if k > 0 { SumFrame(s, t, k - 1, part); }
  }

  lemma SumUpdate(s: seq<Entry>, i: nat, e: Entry, k: nat, part: Part)
    requires i < |s| && k <= |s|
    ensures Sum(s[i := e], k, part) == Sum(s, k, part) + if i < k then Weight(e, part) - Weight(s[i], part) else 0
  {
    if k > 0 { SumUpdate(s, i, e, k - 1, part); }
  }

  lemma SumZeroBeyond(s: seq<Entry>, j: nat, k: nat, part: Part)
    requires j <= k <= |s| && forall i | j <= i < k :: Weight(s[i], part) == 0
    ensures Sum(s, j, part) == Sum(s, k, part)
  {
    if j < k { SumZeroBeyond(s, j, k - 1, part); }
  }

  lemma OpenAndQueuedAreCounted(s: seq<Entry>, k: nat)
    requires k <= |s|
    ensures Sum(s, k, Open) + Sum(s, k, OfQueued) <= Sum(s, k, InCounter)
    ensures Sum(s, k, OfAdmitted) <= Sum(s, k, Open)
  {
    if k > 0 { OpenAndQueuedAreCounted(s, k - 1); }
  }

  /** One past the last reservation that was ever admitted. */
  function LastGranted(s: seq<Entry>): (top: nat)
    ensures top <= |s| && (top > 0 ==> s[top - 1].granted)
    ensures forall i | top <= i < |s| :: !s[i].granted
  {
    if s == [] then 0 else if s[|s| - 1].granted then |s| else LastGranted(s[..|s| - 1])
  }

  /** A reservation that was not admitted leaves the last admitted one where it is. */
  lemma SameGranted(s: seq<Entry>, t: seq<Entry>)
    requires |s| <= |t| && (forall i | 0 <= i < |s| :: s[i].granted == t[i].granted)
    requires forall i | |s| <= i < |t| :: !t[i].granted
    ensures LastGranted(t) == LastGranted(s)
  {
  }

  // ---------------------------------------------------------------------------
  // What a request has read covers the debt
  // ---------------------------------------------------------------------------

  /** The debt less what the generator billed since `base`. */
  function OwnDebt(w: World, base: nat): int {
    Debt(w) - (w.accrued - base)
  }

  /** Of one reservation, what is queued, was missed, and is still in the counter. */
  function UnreadOf(e: Entry, missed: nat): nat {
    if Unreleased(e) then Min(missed, Billed(e)) else 0
  }

  function Unread(s: seq<Entry>, k: nat, missed: map<nat, nat>): nat
    requires k <= |s|
  {
    if k == 0 then 0 else Unread(s, k - 1, missed) + UnreadOf(s[k - 1], Missed(missed, k - 1))
  }

  lemma UnreadFrame(s: seq<Entry>, t: seq<Entry>, k: nat, missed: map<nat, nat>)
    requires k <= |s| && k <= |t| && forall i | 0 <= i < k :: s[i] == t[i]
    ensures Unread(s, k, missed) == Unread(t, k, missed)
  {
    if k > 0 { UnreadFrame(s, t, k - 1, missed); }
  }

  /** Sums of unread amounts after an entry, and what was missed of it, changed. */
  lemma UnreadUpdate(s: seq<Entry>, i: nat, e: Entry, k: nat, missed: map<nat, nat>, now: map<nat, nat>)
    requires i < |s| && k <= |s| && forall j: nat | j != i :: Missed(now, j) == Missed(missed, j)
    ensures Unread(s[i := e], k, now) == Unread(s, k, missed) +
            if i < k then UnreadOf(e, Missed(now, i)) - UnreadOf(s[i], Missed(missed, i)) else 0
  {
    if k > 0 { UnreadUpdate(s, i, e, k - 1, missed, now); }
  }

  lemma UnreadAtMost(s: seq<Entry>, k: nat, missed: map<nat, nat>)
    requires k <= |s|
    ensures Unread(s, k, missed) <= Sum(s, k, OfQueued)
  {
    if k > 0 { UnreadAtMost(s, k - 1, missed); }
  }

  /**
   * By how much what a request has read exceeds what it has to cover: before it reads the queue, by what was
   * taken out of the parked debt; then, as the debt that it read is settled; and once it has read the balance,
   * as deposits come in, whichever leaves less.
   */
  function Spare(w: World, v: Visit): int {
    match v
    case HeldRead(_, held) => held - w.held
    case OwedRead(_, owed, base, missed) => owed + Unread(w.entries, |w.entries|, missed) - OwnDebt(w, base)
    case BalanceRead(_, owed, base, missed, seen) =>
      var debt := owed + Unread(w.entries, |w.entries|, missed) - OwnDebt(w, base);
      Min(debt, debt - seen + w.balance)
  }

  ghost predicate VisitCovers(w: World, v: Visit) {
    Spare(w, v) >= 0
  }

  /**
   * What a pending reservation is judged on covers everything open up to and including it: against the
   * debt alone, and against the debt and balance together (a settlement moves both).
   */
  ghost predicate Covers(w: World, i: nat)
    requires i < |w.entries|
  {
    var e := w.entries[i];
    && Sum(w.entries, i + 1, Open) + OwnDebt(w, e.base) <= e.total + e.owed
    && Sum(w.entries, i + 1, Open) + OwnDebt(w, e.base) - w.balance <= e.total + e.owed - e.seen
  }

  /**
   * The argument is on the last reserver that was ever admitted: everything open before it was in the total it
   * was judged on. A pending request after it carries a total that covers all before it.
   */
  ghost predicate Inv(w: World) {
    && w.ttl > 0
    && KeyCounts(w)
    && AdmittedAreGranted(w)
    && LastCovers(w, LastGranted(w.entries))
    && PendingCovered(w, LastGranted(w.entries))
    && VisitsCovered(w)
    && BasesPassed(w)
  }

  ghost predicate KeyCounts(w: World) {
    && (w.key.Held? ==> w.now < w.key.expiresAt && IsInt64(w.key.amount))
    && Sum(w.entries, |w.entries|, InCounter) <= ValueAt(w.key, w.now)
  }

  ghost predicate AdmittedAreGranted(w: World) {
    forall i | 0 <= i < |w.entries| && w.entries[i].status.Admitted? :: w.entries[i].granted
  }

  ghost predicate PendingCovered(w: World, top: nat) {
    forall i | top <= i < |w.entries| && w.entries[i].status.Pending? :: Covers(w, i)
  }

  ghost predicate VisitsCovered(w: World) {
    forall id | id in w.visits :: VisitCovers(w, w.visits[id])
  }

  ghost predicate LastCovers(w: World, top: nat)
    requires top <= |w.entries|
  {
    top > 0 ==> Sum(w.entries, top, Open) + OwnDebt(w, w.entries[top - 1].base) <= w.balance
  }

  ghost predicate BasesPassed(w: World) {
    && (forall i | 0 <= i < |w.entries| :: w.entries[i].base <= w.accrued)
    && (forall id | id in w.visits && !w.visits[id].HeldRead? :: w.visits[id].base <= w.accrued)
  }

  // ---------------------------------------------------------------------------
  // No overcommit
  // ---------------------------------------------------------------------------

  /**
   * What must not happen: a reservation leaves the counter, or a voucher is parked, that a request has missed
   * which has less to spare, before that request has reserved; a request fails to read a debt greater than what it
   * has to spare; and the counter lapses while somebody who may still use his reservation is in it.
   */
  predicate Orderly(w: World, ev: Event) {
    match ev
    case Release(i) => forall id | id in w.visits :: Harmless(w, i, w.visits[id])
    case Abandon(i) => forall id | id in w.visits :: Harmless(w, i, w.visits[id])
    case ReadHeld(id, _, up) => id !in w.visits ==> up || w.held <= 0
    case ReadQueue(id, up) =>
      id in w.visits && w.visits[id].HeldRead? ==> up || w.queued <= Spare(w, w.visits[id])
    case Park(x) =>
      x <= w.queued ==> forall id | id in w.visits && w.visits[id].HeldRead? :: x <= Spare(w, w.visits[id])
    case Pass(d) => Sum(w.entries, |w.entries|, InCounter) > 0 ==> w.key.Held? && w.now + d < w.key.expiresAt
    case _ => true
  }

  /** A reservation's end takes nothing from a request that has read its vouchers, or that has as much to spare. */
  predicate Harmless(w: World, i: nat, v: Visit) {
    i < |w.entries| && !v.HeldRead? && i in v.missed ==> UnreadOf(w.entries[i], v.missed[i]) <= Spare(w, v)
  }

  predicate OrderlyRun(w: World, events: seq<Event>)
    decreases events
  {
    events == [] || (Orderly(w, events[0]) && OrderlyRun(Step(w, events[0]), events[1..]))
  }

  /** The reservations are as they were, and debt and balance moved so that every cover still covers. */
  lemma ShiftKeeps(w: World, c: World)
    requires Inv(w) && c.entries == w.entries && c.ttl == w.ttl && KeyCounts(c) && VisitsCovered(c) && BasesPassed(c)
    requires Debt(c) - c.accrued <= Debt(w) - w.accrued
    requires Debt(c) - c.accrued - c.balance <= Debt(w) - w.accrued - w.balance
    ensures Inv(c)
  {
    hide LastGranted, Sum, KeyCounts, VisitsCovered, BasesPassed;
    forall i | LastGranted(c.entries) <= i < |c.entries| && c.entries[i].status.Pending? ensures Covers(c, i) {
      assert Covers(w, i);
    }
  }

  lemma EnvironmentKeeps(w: World, ev: Event)
    requires Inv(w) && Orderly(w, ev)
    requires ev.Deposit? || ev.Settle? || ev.Park? || ev.Unpark? || ev.Accrue? || ev.Pass?
    ensures Inv(Step(w, ev))
  {
    hide LastGranted, Sum, Unread, LastCovers, PendingCovered, AdmittedAreGranted;
    var c := Step(w, ev);
    forall id | id in c.visits ensures VisitCovers(c, c.visits[id]) {
      assert VisitCovers(w, w.visits[id]);
    }
    ShiftKeeps(w, c);
  }

  lemma ReadingKeeps(w: World, ev: Event)
    requires Inv(w) && Orderly(w, ev) && (ev.ReadHeld? || ev.ReadQueue? || ev.ReadBalance?)
    ensures Inv(Step(w, ev))
  {
    hide LastGranted, Sum, Unread, LastCovers, PendingCovered, AdmittedAreGranted;
    var c := Step(w, ev);
    NothingMissed(w.entries, |w.entries|);
    forall id | id in c.visits ensures VisitCovers(c, c.visits[id]) {
      assert id in w.visits ==> VisitCovers(w, w.visits[id]);
    }
    ShiftKeeps(w, c);
  }

  lemma NothingMissed(s: seq<Entry>, k: nat)
    requires k <= |s|
    ensures Unread(s, k, map[]) == 0
  {
    if k > 0 { NothingMissed(s, k - 1); }
  }

  lemma ReserveKeeps(w: World, id: nat)
    requires Inv(w)
    ensures Inv(Step(w, Reserve(id)))
  {
    var c := Step(w, Reserve(id));
    if |c.entries| > |w.entries| {
      AppendKeeps(w, c, id);
    } else {
      hide LastGranted, Sum, Unread, LastCovers, PendingCovered, AdmittedAreGranted;
      forall other | other in c.visits ensures VisitCovers(c, c.visits[other]) {
        assert VisitCovers(w, w.visits[other]);
      }
      ShiftKeeps(w, c);
    }
  }

  /** One more reservation: the total it carries covers all that is open and what it has not read. */
  lemma AppendKeeps(w: World, c: World, id: nat)
    requires Inv(w) && c == Step(w, Reserve(id)) && |c.entries| > |w.entries|
    ensures Inv(c)
  {
    var n := |w.entries|;
    hide LastGranted, Unread;
    SameGranted(w.entries, c.entries);
    forall part, k | 0 <= k <= n ensures Sum(c.entries, k, part) == Sum(w.entries, k, part) {
      SumFrame(w.entries, c.entries, k, part);
    }
    assert VisitCovers(w, w.visits[id]);
    OpenAndQueuedAreCounted(w.entries, n);
    UnreadAtMost(w.entries, n, w.visits[id].missed);
    assert Sum(c.entries, n + 1, Open) == Sum(w.entries, n, Open) + c.entries[n].amount;
    assert Sum(c.entries, n + 1, InCounter) == Sum(w.entries, n, InCounter) + c.entries[n].amount;
    hide Sum;
    assert Covers(c, n);
    forall i | LastGranted(w.entries) <= i < n && c.entries[i].status.Pending? ensures Covers(c, i) {
      assert Covers(w, i);
    }
    forall other | other in c.visits ensures VisitCovers(c, c.visits[other]) {
      assert VisitCovers(w, w.visits[other]);
      if !w.visits[other].HeldRead? {
        UnreadAppend(w.entries, c.entries, w.visits[other].missed);
      }
    }
  }

  lemma UnreadAppend(s: seq<Entry>, t: seq<Entry>, missed: map<nat, nat>)
    requires |t| == |s| + 1 && (forall i | 0 <= i < |s| :: s[i] == t[i]) && t[|s|].queued == 0
    ensures Unread(t, |t|, missed) == Unread(s, |s|, missed)
  {
    UnreadFrame(s, t, |s|, missed);
  }

  /** Sums after the entry at `i` changed in place. */
  lemma ChangeSums(w: World, c: World, i: nat)
    requires i < |w.entries| == |c.entries| && c.entries == w.entries[i := c.entries[i]]
    ensures forall k, part {:trigger Sum(c.entries, k, part)} | 0 <= k <= |w.entries| ::
              Sum(c.entries, k, part) == Sum(w.entries, k, part)
                                         + if i < k then Weight(c.entries[i], part) - Weight(w.entries[i], part) else 0
  {
    forall k, part | 0 <= k <= |w.entries| {
      SumUpdate(w.entries, i, c.entries[i], k, part);
    }
  }

  /** What a visit has to spare after an entry changed that leaves as much of it unread. */
  lemma SameSpare(w: World, c: World, i: nat, v: Visit)
    requires i < |w.entries| == |c.entries| && c.entries == w.entries[i := c.entries[i]]
    requires Unreleased(c.entries[i]) == Unreleased(w.entries[i]) && Billed(c.entries[i]) == Billed(w.entries[i])
    requires Debt(c) == Debt(w) && c.held == w.held && c.balance == w.balance && c.accrued == w.accrued
    ensures Spare(c, v) == Spare(w, v)
  {
    if !v.HeldRead? {
      UnreadUpdate(w.entries, i, c.entries[i], |w.entries|, v.missed, v.missed);
    }
  }

  lemma ReadAgainKeeps(w: World, i: nat)
    requires Inv(w)
    ensures Inv(Step(w, ReadAgain(i)))
  {
    var c := Step(w, ReadAgain(i));
    if c != w {
      assert BasesPassed(c) && AdmittedAreGranted(c);
      hide BasesPassed, AdmittedAreGranted;
      ChangeSums(w, c, i);
      SameGranted(w.entries, c.entries);
      assert KeyCounts(c);
      hide LastGranted, Sum, Unread, KeyCounts, Spare;
      forall j | LastGranted(w.entries) <= j < |c.entries| && c.entries[j].status.Pending? ensures Covers(c, j) {
        assert Covers(w, j);
      }
      forall id | id in c.visits ensures VisitCovers(c, c.visits[id]) {
        assert VisitCovers(w, w.visits[id]);
        SameSpare(w, c, i, w.visits[id]);
      }
      assert PendingCovered(c, LastGranted(c.entries)) && VisitsCovered(c);
      assert LastCovers(c, LastGranted(c.entries));
      hide Step, PendingCovered, VisitsCovered, LastCovers;
    }
  }

  /** The verdict changes neither what is open, unless it refuses, nor what anybody has read. */
  lemma VerdictKeeps(w: World, c: World, i: nat)
    requires Inv(w) && i < |w.entries| && w.entries[i].status.Pending?
    requires i < |c.entries| && c == Put(w, i, c.entries[i])
    requires c.entries[i] == w.entries[i].(status := c.entries[i].status, granted := c.entries[i].granted)
    requires c.entries[i].status.Admitted? || c.entries[i].status.Refused?
    ensures KeyCounts(c) && VisitsCovered(c) && BasesPassed(c) && PendingCovered(c, LastGranted(w.entries))
    ensures forall k | 0 <= k <= |w.entries| :: Sum(c.entries, k, Open) <= Sum(w.entries, k, Open)
  {
    ChangeSums(w, c, i);
    hide LastGranted, Sum, Unread;
    forall j | LastGranted(w.entries) <= j < |c.entries| && c.entries[j].status.Pending? ensures Covers(c, j) {
      assert Covers(w, j);
    }
    forall id | id in c.visits ensures VisitCovers(c, c.visits[id]) {
      assert VisitCovers(w, w.visits[id]);
      SameSpare(w, c, i, w.visits[id]);
    }
  }

  lemma JudgeKeeps(w: World, i: nat)
    requires Inv(w)
    ensures Inv(Step(w, Judge(i)))
  {
    var c := Step(w, Judge(i));
    if c != w {
      var top := LastGranted(w.entries);
      VerdictKeeps(w, c, i);
      if c.entries[i].granted == w.entries[i].granted {
        SameGranted(w.entries, c.entries);
      } else {
        NowGranted(w.entries, i, c.entries[i]);
      }
      hide LastGranted, Sum, Unread, KeyCounts, VisitsCovered, BasesPassed;
      assert i >= top ==> Covers(w, i);
    }
  }

  lemma NowGranted(s: seq<Entry>, i: nat, e: Entry)
    requires i < |s| && e.granted
    ensures LastGranted(s[i := e]) == Max(LastGranted(s), i + 1)
  {
    var t := s[i := e];
    assert t[i].granted;
    if LastGranted(t) > i + 1 {
      assert s[LastGranted(t) - 1].granted;
    }
    if LastGranted(s) > i + 1 {
      assert t[LastGranted(s) - 1].granted;
    }
  }

  /** A voucher queued for a reservation leaves everybody as much to spare: it is debt, and it was missed. */
  lemma EnqueueSpare(w: World, i: nat, x: nat, v: Visit)
    requires Step(w, Enqueue(i, x)) != w
    ensures Spare(Step(w, Enqueue(i, x)), Notice(v, i, x)) == Spare(w, v)
  {
    if !v.HeldRead? {
      var c := Step(w, Enqueue(i, x));
      UnreadUpdate(w.entries, i, c.entries[i], |w.entries|, v.missed, Notice(v, i, x).missed);
    }
  }

  lemma EnqueueKeeps(w: World, i: nat, x: nat)
    requires Inv(w)
    ensures Inv(Step(w, Enqueue(i, x)))
  {
    var c := Step(w, Enqueue(i, x));
    if c != w {
      ChangeSums(w, c, i);
      SameGranted(w.entries, c.entries);
      assert KeyCounts(c);
      hide LastGranted, Sum, Unread, KeyCounts, Spare;
      assert i < LastGranted(w.entries);
      forall j | LastGranted(w.entries) <= j < |c.entries| && c.entries[j].status.Pending? ensures Covers(c, j) {
        assert Covers(w, j);
      }
      forall id | id in c.visits ensures VisitCovers(c, c.visits[id]) {
        assert VisitCovers(w, w.visits[id]);
        EnqueueSpare(w, i, x, w.visits[id]);
      }
    }
  }

  /** The end of a reservation changes what a request has to spare by what of it the request has missed. */
  lemma CloseSpare(w: World, c: World, i: nat, v: Visit)
    requires i < |w.entries| && c.entries == w.entries[i := w.entries[i].(status := Closed)]
    requires Debt(c) == Debt(w) && c.held == w.held && c.balance == w.balance && c.accrued == w.accrued
    ensures Spare(c, v) == Spare(w, v) - if v.HeldRead? then 0 else UnreadOf(w.entries[i], Missed(v.missed, i))
  {
    if !v.HeldRead? {
      UnreadUpdate(w.entries, i, c.entries[i], |w.entries|, v.missed, v.missed);
    }
  }

  lemma CloseKeeps(w: World, c: World, i: nat)
    requires Inv(w) && i < |w.entries| && KeyCounts(c)
    requires c == w.(key := c.key, entries := w.entries[i := w.entries[i].(status := Closed)])
    requires forall id | id in w.visits :: Harmless(w, i, w.visits[id])
    ensures Inv(c)
  {
    ChangeSums(w, c, i);
    SameGranted(w.entries, c.entries);
    hide LastGranted, Sum, Unread, KeyCounts, Spare;
    forall j | LastGranted(w.entries) <= j < |c.entries| && c.entries[j].status.Pending? ensures Covers(c, j) {
      assert Covers(w, j);
    }
    forall id | id in c.visits ensures VisitCovers(c, c.visits[id]) {
      assert VisitCovers(w, w.visits[id]) && Harmless(w, i, w.visits[id]);
      CloseSpare(w, c, i, w.visits[id]);
    }
  }

  lemma EndKeeps(w: World, ev: Event)
    requires Inv(w) && Orderly(w, ev) && (ev.Release? || ev.Abandon?)
    ensures Inv(Step(w, ev))
  {
    var c := Step(w, ev);
    if c != w {
      ChangeSums(w, c, ev.i);
      assert Sum(c.entries, |c.entries|, InCounter) >= 0;
      CloseKeeps(w, c, ev.i);
    }
  }

  lemma {:induction false} RunKeeps(w: World, events: seq<Event>)
    requires Inv(w) && OrderlyRun(w, events)
    ensures Inv(Run(w, events))
    decreases events
  {
    if events != [] {
      match events[0] {
        case ReadHeld(_, _, _) => ReadingKeeps(w, events[0]);
        case ReadQueue(_, _) => ReadingKeeps(w, events[0]);
        case ReadBalance(_) => ReadingKeeps(w, events[0]);
        case Reserve(id) => ReserveKeeps(w, id);
        case ReadAgain(i) => ReadAgainKeeps(w, i);
        case Judge(i) => JudgeKeeps(w, i);
        case Enqueue(i, x) => EnqueueKeeps(w, i, x);
        case Release(_) => EndKeeps(w, events[0]);
        case Abandon(_) => EndKeeps(w, events[0]);
        case _ => EnvironmentKeeps(w, events[0]);
      }
      RunKeeps(Step(w, events[0]), events[1..]);
    }
  }

  /** What the admitted requests have not yet turned into debt. */
  function AdmittedSum(w: World): nat {
    Sum(w.entries, |w.entries|, OfAdmitted)
  }

  /** No request under way, nothing reserved. */
  function Opening(balance: int, held: int, queued: int, ttl: int): World {
    World(balance, held, queued, 0, Absent, 0, ttl, map[], [])
  }

  /**
   * No overcommit. In every interleaving of any number of requests, whenever some admitted request is still
   * outstanding, all admitted amounts together with the whole debt fit the balance, except for what the
   * generator has billed since the last request that was ever admitted read the queue.
   */
  lemma NoOvercommit(balance: int, held: int, queued: int, ttl: int, events: seq<Event>)
    requires ttl > 0 && OrderlyRun(Opening(balance, held, queued, ttl), events)
    ensures var w := Run(Opening(balance, held, queued, ttl), events);
      (exists i :: 0 <= i < |w.entries| && w.entries[i].status.Admitted?) ==>
        var top := LastGranted(w.entries);
        && top > 0 && w.entries[top - 1].base <= w.accrued
        && AdmittedSum(w) + Debt(w) <= w.balance + (w.accrued - w.entries[top - 1].base)
  {
    var w := Run(Opening(balance, held, queued, ttl), events);
    RunKeeps(Opening(balance, held, queued, ttl), events);
    var top := LastGranted(w.entries);
    OpenAndQueuedAreCounted(w.entries, top);
    SumZeroBeyond(w.entries, top, |w.entries|, OfAdmitted);
  }

  // ---------------------------------------------------------------------------
  // Exactly when the order is kept
  // ---------------------------------------------------------------------------

  /**
   * The end of a reservation, by a release or not, leaves a request that is on its way to its own covered if and
   * only if the request has at least as much to spare as it has missed of the vouchers queued for that one.
   */
  lemma EndCoversIffHarmless(w: World, ev: Event, v: Visit)
    requires (ev.Release? || ev.Abandon?) && Step(w, ev) != w && VisitCovers(w, v)
    ensures VisitCovers(Step(w, ev), v) <==> Harmless(w, ev.i, v)
  {
    CloseSpare(w, Step(w, ev), ev.i, v);
  }

  /**
   * Parking a voucher leaves it covered if and only if it has read the queue, or as much was taken out of the
   * parked debt since it read that.
   */
  lemma ParkCoversIff(w: World, x: nat, v: Visit)
    requires VisitCovers(w, v) && x <= w.queued
    ensures VisitCovers(Step(w, Park(x)), v) <==> !v.HeldRead? || w.held + x <= v.held
  {
  }

  /**
   * A reading of the parked or of the queued debt leaves the request covered if and only if it succeeds, or there is
   * no more of that debt than what the request has to spare.
   */
  lemma ReadingCoversIff(w: World, ev: Event)
    requires ev.ReadHeld? || ev.ReadQueue?
    requires Step(w, ev) != w && (ev.ReadQueue? ==> VisitCovers(w, w.visits[ev.id]))
    ensures VisitCovers(Step(w, ev), Step(w, ev).visits[ev.id]) <==>
            ev.up || (if ev.ReadHeld? then w.held <= 0 else w.held + w.queued <= w.visits[ev.id].held)
  {
    NothingMissed(w.entries, |w.entries|);
  }

  /**
   * Time leaves the reservations counted if and only if the counter does not lapse with one in it that may still
   * be used.
   */
  lemma PassCountsIffNothingLapses(w: World, d: nat)
    requires KeyCounts(w)
    ensures KeyCounts(Step(w, Pass(d))) <==> Orderly(w, Pass(d))
  {
    var c := Step(w, Pass(d));
    assert c.entries == w.entries;
  }

  /**
   * A request that nobody interrupts is admitted exactly when the balance covers the debt, what is reserved and itself,
   * and the counter then holds that much more; a refused one gives it back by its release.
   */
  lemma LoneRequest(w: World, id: nat, amount: nat)
    requires w.ttl > 0 && id !in w.visits && 0 <= ValueAt(w.key, w.now) <= INT64_MAX - amount
    ensures var i, held := |w.entries|, ValueAt(w.key, w.now);
      var w' := Run(Run(w, ReadsOf(id, amount)), Gate(id, i));
      && |w'.entries| == i + 1 && w'.entries[..i] == w.entries && w'.visits == w.visits
      && w'.entries[i].amount == amount
      && w'.entries[i].status == (if w.held + w.queued + held + amount <= w.balance then Admitted else Status.Refused)
      && w'.key == Held(held + amount, w.now + w.ttl)
      && ValueAt(Step(w', Release(i)).key, w.now) == held
      && Step(w', Release(i)).entries[i].status == Closed
  {
    hide Run;
    var w1 := ReadsOut(w, id, amount, w.balance);
    var w2 := GateOut(w1, id, |w.entries|);
    assert w1.visits - {id} == w.visits;
    assert w2.entries[..|w.entries|] == w.entries;
  }

  /** A reservation that the counter cannot take is not made, and the request leaves the window without it. */
  lemma OverflowReservesNothing(w: World, id: nat)
    requires id in w.visits && w.visits[id].BalanceRead?
    requires ValueAt(w.key, w.now) + w.visits[id].amount > INT64_MAX
    ensures Step(w, Reserve(id)) == w.(visits := w.visits - {id})
  {
  }

  /** A leaked reservation stays in the counter, and nobody takes it out any more. */
  lemma LeakStaysInTheCounter(w: World, i: nat)
    requires i < |w.entries|
    ensures var w' := Step(w, Abandon(i));
      w'.key == w.key && w'.entries == w.entries[i := w.entries[i].(status := Closed)] && Step(w', Release(i)) == w'
  {
  }

  /** After a top-up a pending request is judged on the balance as it is then. */
  lemma JudgedOnTheNewBalance(w: World, i: nat)
    requires i < |w.entries| && w.entries[i].status.Pending?
    ensures var w', e := Step(Step(w, ReadAgain(i)), Judge(i)), w.entries[i];
      && |w'.entries| == |w.entries| && w'.key == w.key
      && w'.entries[i].status == (if e.owed + e.total <= w.balance then Admitted else Status.Refused)
      && forall j | 0 <= j < |w.entries| && j != i :: w'.entries[j] == w.entries[j]
  {
  }

  /** What a hook charges: no more than its reservation, once it is admitted. */
  predicate Charges(w: World, ev: Event) {
    ev.Enqueue? && ev.i < |w.entries| && w.entries[ev.i].status == Admitted &&
    w.entries[ev.i].queued + ev.fee <= w.entries[ev.i].amount
  }

  /**
   * Money is conserved: what the pair has less what it owes changes by deposits and by what the hooks and the generator
   * charge. Settling takes a charge off both sides, as far as the balance goes; parking moves it between the queues.
   */
  lemma MoneyIsConserved(w: World, ev: Event)
    ensures var w' := Step(w, ev);
      var change := match ev
        case Deposit(x) => x
        case Accrue(x) => 0 - x
        case Enqueue(_, x) => if Charges(w, ev) then 0 - x else 0
        case _ => 0;
      && w'.balance - (w'.held + w'.queued) == w.balance - (w.held + w.queued) + change
      && w'.balance == w.balance + (match ev
                                    case Deposit(x) => x
                                    case Settle(x) => if x <= w.balance && x <= w.queued then 0 - x else 0
                                    case _ => 0)
      && w'.held == w.held + (match ev
                              case Park(x) => if x <= w.queued then x else 0
                              case Unpark(x) => if x <= w.held then 0 - x else 0
                              case _ => 0)
  {
  }

  /** A run some events longer. */
  lemma {:induction false} Then(w: World, events: seq<Event>, more: seq<Event>)
    ensures Run(w, events + more) == Run(Run(w, events), more)
    decreases events
  {
    if events == [] {
      assert events + more == more;
    } else {
      assert (events + more)[0] == events[0] && (events + more)[1..] == events[1..] + more;
      Then(Step(w, events[0]), events[1..], more);
    }
  }

  /** The steps of one request up to its reservation, and those after it. */
  function Reading(id: nat): seq<Event> {
    ReadsOf(id, 10)
  }

  function ReadsOf(id: nat, amount: nat): seq<Event> {
    [ReadHeld(id, amount, true), ReadQueue(id, true), ReadBalance(id)]
  }

  function Hook(i: nat): seq<Event> {
    [Enqueue(i, 10), Release(i)]
  }

  function Gate(id: nat, i: nat): seq<Event> {
    [Reserve(id), Judge(i)]
  }

  /**
   * Why a hook's release may not fall into another request's window: the second request read the queue before the
   * first one's voucher was in it and reserved after its reservation was gone, so it was judged on neither.
   * Balance 10, two requests of 10, both admitted.
   */
  lemma ReleaseInsideWindowOvercommits()
    ensures var w := Run(Opening(10, 0, 0, 120), Reading(0) + Gate(0, 0) + Reading(1) + Hook(0) + Gate(1, 1));
      && w.balance == 10 && w.accrued == 0
      && AdmittedSum(w) + Debt(w) == 20
  {
    hide Run;
    var w0 := Opening(10, 0, 0, 120);
    Then(w0, Reading(0) + Gate(0, 0), Reading(1));
    Then(w0, Reading(0) + Gate(0, 0) + Reading(1), Hook(0));
    Then(w0, Reading(0) + Gate(0, 0) + Reading(1) + Hook(0), Gate(1, 1));
    var w2 := FirstIsAdmitted();
    var w5 := SecondOvertakes(w2);
    assert Sum(w5.entries, 1, OfAdmitted) == 0;
  }

  lemma FirstIsAdmitted() returns (c: World)
    ensures c == Run(Opening(10, 0, 0, 120), Reading(0) + Gate(0, 0))
    ensures c == World(10, 0, 0, 0, Held(10, 120), 0, 120, map[], [Entry(10, 10, 0, 10, 0, 0, true, Admitted)])
  {
    hide Run;
    var w0 := Opening(10, 0, 0, 120);
    var w1 := ReadsOut(w0, 0, 10, 10);
    Then(w0, Reading(0), Gate(0, 0));
    c := GateOut(w1, 0, 0);
  }

  lemma SecondOvertakes(w: World) returns (c: World)
    requires w == World(10, 0, 0, 0, Held(10, 120), 0, 120, map[], [Entry(10, 10, 0, 10, 0, 0, true, Admitted)])
    ensures c == Run(Run(Run(w, Reading(1)), Hook(0)), Gate(1, 1))
    ensures c.balance == 10 && c.accrued == 0 && Debt(c) == 10 && |c.entries| == 2
    ensures c.entries[0].status.Closed? && c.entries[1].status.Admitted? && Left(c.entries[1]) == 10
  {
    hide Run;
    var w3 := ReadsOut(w, 1, 10, 10);
    var w4 := HookOut(w3, 0);
    assert w4.key == Absent;
    c := GateOut(w4, 1, 1);
  }

  lemma ReadsOut(w: World, id: nat, amount: nat, balance: int) returns (c: World)
    requires id !in w.visits && w.balance == balance
    ensures c == Run(w, ReadsOf(id, amount)) ==
            At(w, id, BalanceRead(amount, w.held + w.queued, w.accrued, map[], balance))
  {
    var rest := [ReadQueue(id, true), ReadBalance(id)];
    RunOf(w, ReadHeld(id, amount, true), rest);
    GateOf(Step(w, ReadHeld(id, amount, true)), ReadQueue(id, true), ReadBalance(id));
    assert [ReadHeld(id, amount, true)] + rest == ReadsOf(id, amount);
    c := Step(Step(Step(w, ReadHeld(id, amount, true)), ReadQueue(id, true)), ReadBalance(id));
    assert c.visits == w.visits[id := BalanceRead(amount, w.held + w.queued, w.accrued, map[], balance)];
  }

  lemma RunOf(w: World, e: Event, rest: seq<Event>)
    ensures Run(w, [e] + rest) == Run(Step(w, e), rest)
  {
    hide Step;
    assert ([e] + rest)[1..] == rest;
  }

  lemma GateOf(w: World, e: Event, f: Event)
    ensures Run(w, [e, f]) == Step(Step(w, e), f)
  {
    hide Step;
    assert [e, f][1..] == [f] && [f][1..] == [];
    assert Run(Step(w, e), [f]) == Step(Step(w, e), f);
  }

  lemma GateOut(w: World, id: nat, i: nat) returns (c: World)
    ensures c == Run(w, Gate(id, i)) == Step(Step(w, Reserve(id)), Judge(i))
  {
    GateOf(w, Reserve(id), Judge(i));
    c := Run(w, Gate(id, i));
  }

  lemma HookOut(w: World, i: nat) returns (c: World)
    ensures c == Run(w, Hook(i)) == Step(Step(w, Enqueue(i, 10)), Release(i))
  {
    GateOf(w, Enqueue(i, 10), Release(i));
    c := Run(w, Hook(i));
  }

  // ---------------------------------------------------------------------------
  // One request's pass through the gate
  // ---------------------------------------------------------------------------

  /** The broker's answer to a shortfall: not configured, refused, or a top-up that has landed. */
  datatype Broker = NoBroker | FundingFailed | Funded

  datatype Outcome =
    | BadGateway
    | PaymentRequired(available: int, required: int)
    | Proceed(reserved: bool)

  /**
   * The gate inside handleCreate and handleStart, on one request that runs alone. `balance` and
   * `balanceAgain` are the two chain reads, `None` for one that failed.
   */
  method PassGate(counter: Counter, required: nat, debt: int, balance: Option<int>, broker: Broker,
                  balanceAgain: Option<int>, ttl: int, now: int) returns (outcome: Outcome)
    requires ttl > 0 && 0 <= ValueAt(counter.key, now) <= INT64_MAX
    modifies counter
    // A request that does not go on leaves the counter as it found it ...
    ensures !outcome.Proceed? ==> ValueAt(counter.key, now) == old(ValueAt(counter.key, now))
    // ... and one that goes on has added its amount, unless the counter could not take it.
    ensures outcome.Proceed? ==>
              ValueAt(counter.key, now) == old(ValueAt(counter.key, now)) + if outcome.reserved then required else 0
    ensures outcome.Proceed? ==> (outcome.reserved <==> old(ValueAt(counter.key, now)) + required <= INT64_MAX)
    // It goes on exactly when the last balance read covers debt, earlier reservations and itself.
    ensures var held := old(ValueAt(counter.key, now));
      && (outcome.Proceed? <==>
            (balance.Some? && (debt + held + required <= balance.value ||
              (broker.Funded? && balanceAgain.Some? && debt + held + required <= balanceAgain.value))))
      && (outcome.BadGateway? <==>
            (balance.None? || (debt + held + required > balance.value && broker.Funded? && balanceAgain.None?)))
    // A refusal shows what the balance endpoint would have shown before this request: nothing, or what was left.
    ensures outcome.PaymentRequired? ==> balance.Some? && outcome.required == required
    ensures outcome.PaymentRequired? ==>
              var last := if broker.Funded? && balanceAgain.Some? then balanceAgain.value else balance.value;
              var left := last - debt - old(ValueAt(counter.key, now));
              outcome.available == (if left < 0 then 0 else left)
  {
    if balance.None? {
      return BadGateway;
    }
    var total := counter.Reserve(required, ttl, now);
    var reserved := total.Some?;
    var totalReserved;
    if reserved {
      totalReserved := total.value;
    } else {
      var held := counter.GetReserved(now);
      totalReserved := held + required;
    }
    var shortfall := balance.value - debt - totalReserved;
    if shortfall < 0 && broker.Funded? {
      if balanceAgain.None? {
        if reserved { counter.Release(required, now); }
        return BadGateway;
      }
      shortfall := balanceAgain.value - debt - totalReserved;
    }
    if shortfall < 0 {
      if reserved { counter.Release(required, now); }
      var display := shortfall + required;
      return PaymentRequired(if display < 0 then 0 else display, required);
    }
    return Proceed(reserved);
  }
}
