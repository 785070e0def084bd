/**
The reservation counter of one (user, provider) pair: one Redis string with one
TTL for the whole key, changed only by two atomic scripts.

Times are seconds. A key whose time to live has run out reads as absent.
*/
module ReservedKey {
  import opened Arithmetic
  import opened Wrappers

  datatype Key = Absent | Held(amount: int, expiresAt: int)

  /** What a command issued at time `now` finds under the key. */
  function ValueAt(k: Key, now: int): int {
    if k.Held? && now < k.expiresAt then k.amount else 0
  }

  function ExpiryAt(k: Key, now: int): Option<int> {
    if k.Held? && now < k.expiresAt then Some(k.expiresAt) else None
  }

  /** INCRBY then EXPIRE. `None` is INCRBY's overflow error, which stops the script before EXPIRE. */
  function AfterReserve(k: Key, amount: int, ttl: int, now: int): Option<Key> {
    var total := ValueAt(k, now) + amount;
    if IsInt64(amount) && IsInt64(total) then Some(Held(total, now + ttl)) else None
  }

  /** DECRBY, which keeps the TTL, then DEL once nothing is left. */
  function AfterRelease(k: Key, amount: int, now: int): Key {
    var left := ValueAt(k, now) - amount;
    if !IsInt64(amount) || !IsInt64(left) then k
    else if left <= 0 then Absent
    else Held(left, match ExpiryAt(k, now) { case Some(e) => e case None => 0 })
  }

  class Counter {
    var key: Key

    constructor ()
      ensures key == Absent
    {
      key := Absent;
    }

    /** Reserve: the returned total is what the counter then shows to everybody until `now + ttl`. */
    method Reserve(amount: int, ttl: int, now: int) returns (total: Option<int>)
      requires ttl > 0
      modifies this
      ensures total.Some? <==> IsInt64(amount) && IsInt64(old(ValueAt(key, now)) + amount)
      ensures total.None? ==> key == old(key)
      ensures total.Some? ==> Some(key) == old(AfterReserve(key, amount, ttl, now))
      ensures total.Some? ==> total.value == old(ValueAt(key, now)) + amount
      ensures total.Some? ==> forall t :: ValueAt(key, t) == if t < now + ttl then total.value else 0
    {
      var stored := if key.Held? && key.expiresAt <= now then Absent else key;
      var base := if stored.Held? then stored.amount else 0;
      if !IsInt64(amount) || !IsInt64(base + amount) {
        return None;
      }
      key := Held(base + amount, now + ttl);
      total := Some(key.amount);
    }

    /** Release takes off at most what the counter holds and never moves its expiry. */
    method Release(amount: nat, now: int)
      requires 0 <= ValueAt(key, now) <= INT64_MAX
      modifies this
      ensures key == old(AfterRelease(key, amount, now))
      ensures var before := old(ValueAt(key, now));
        amount <= INT64_MAX ==> ValueAt(key, now) == if before > amount then before - amount else 0
      ensures var before := old(ValueAt(key, now));
        && (amount > INT64_MAX ==> key == old(key))
        && (amount < before ==> key == Held(before - amount, old(key).expiresAt))
    {
      var live := key.Held? && now < key.expiresAt;
      var left := (if live then key.amount else 0) - amount;
      if amount <= INT64_MAX {
        if left <= 0 {
          key := Absent;
        } else {
          key := Held(left, key.expiresAt);
        }
      }
    }

    /** GetReserved: an absent or lapsed key counts as zero. */
    method GetReserved(now: int) returns (n: int)
      ensures n == ValueAt(key, now)
      ensures unchanged(this)
    {
      n := if key.Held? && now < key.expiresAt then key.amount else 0;
    }
  }

  // ---------------------------------------------------------------------------
  // What one TTL for the whole key means for the reservations behind it
  // ---------------------------------------------------------------------------

  /** One successful Reserve: its amount, when it was made, and the key generation it was added to. */
  datatype Reservation = Reservation(amount: nat, at: int, generation: nat, released: bool)

  /**
   * A key, its clock, and the reservations made through it. A generation ends when the key lapses; `taken` is what
   * releases of earlier generations took off the counter in this one.
   */
  datatype Book = Book(key: Key, now: int, ttl: int, generation: nat, made: seq<Reservation>, taken: nat)

  datatype Event = Wait(seconds: nat) | Take(amount: nat) | Give(i: nat)

  predicate Standing(b: Book, r: Reservation) {
    !r.released && r.generation == b.generation
  }

  function StandingSum(b: Book, upTo: nat): (sum: nat)
    requires upTo <= |b.made|
  {
    if upTo == 0 then 0
    else StandingSum(b, upTo - 1) + if Standing(b, b.made[upTo - 1]) then b.made[upTo - 1].amount else 0
  }

  predicate Lapsed(b: Book, now: int) {
    b.key.Held? && b.key.expiresAt <= now
  }

  function Step(b: Book, e: Event): Book {
    match e
    case Wait(d) =>
      if Lapsed(b, b.now + d) then b.(now := b.now + d, key := Absent, generation := b.generation + 1, taken := 0)
      else b.(now := b.now + d)
    case Take(a) =>
      (match AfterReserve(b.key, a, b.ttl, b.now)
       case None => b
       case Some(k) => b.(key := k, made := b.made + [Reservation(a, b.now, b.generation, false)]))
    case Give(i) =>
      if i < |b.made| && !b.made[i].released then
        b.(key := AfterRelease(b.key, b.made[i].amount, b.now), made := b.made[i := b.made[i].(released := true)],
           taken := b.taken + if AfterLapse(b, i) then b.made[i].amount else 0)
      else b
  }

  function Run(b: Book, events: seq<Event>): Book
    decreases events
  {
    if events == [] then b else Run(Step(b, events[0]), events[1..])
  }

  /** A release comes after the key has lapsed since its reservation was made. */
  predicate AfterLapse(b: Book, i: nat) {
    i < |b.made| && !b.made[i].released && b.made[i].generation != b.generation
  }

  /** A release is late when it does, and takes something while others stand. */
  predicate Late(b: Book, e: Event) {
    e.Give? && AfterLapse(b, e.i) && b.made[e.i].amount > 0 && StandingSum(b, |b.made|) > 0
  }

  predicate Punctual(b: Book, events: seq<Event>)
    decreases events
  {
    events == [] || (!Late(b, events[0]) && Punctual(Step(b, events[0]), events[1..]))
  }

  ghost predicate Consistent(b: Book) {
    && b.ttl > 0
    && (b.key.Held? ==> b.now < b.key.expiresAt && IsInt64(b.key.amount))
    && ValueAt(b.key, b.now) == StandingSum(b, |b.made|)
    && (forall i | 0 <= i < |b.made| ::
          b.made[i].at <= b.now && b.made[i].generation <= b.generation && b.made[i].amount <= INT64_MAX)
    && (forall i | 0 <= i < |b.made| && Standing(b, b.made[i]) && b.made[i].amount > 0 ::
          b.key.Held? && b.made[i].at + b.ttl <= b.key.expiresAt)
    && (forall i | 0 <= i < |b.made| && b.made[i].generation < b.generation && b.made[i].amount > 0 ::
          !b.made[i].released ==> b.made[i].at + b.ttl <= b.now)
  }

  predicate SameStanding(b: Book, c: Book, i: nat)
    requires i < |b.made| && i < |c.made|
  {
    b.made[i].amount == c.made[i].amount && (Standing(b, b.made[i]) <==> Standing(c, c.made[i]))
  }

  lemma StandingSumFrame(b: Book, c: Book, upTo: nat)
    requires upTo <= |b.made| && upTo <= |c.made|
    requires forall i | 0 <= i < upTo :: SameStanding(b, c, i)
    ensures StandingSum(b, upTo) == StandingSum(c, upTo)
  {
    if upTo > 0 {
      assert SameStanding(b, c, upTo - 1);
      StandingSumFrame(b, c, upTo - 1);
    }
  }

  lemma StandingSumEnds(b: Book, c: Book, i: nat, upTo: nat)
    requires i < upTo <= |b.made| == |c.made|
    requires forall j | 0 <= j < upTo && j != i :: SameStanding(b, c, j)
    requires Standing(b, b.made[i]) && !Standing(c, c.made[i])
    ensures StandingSum(c, upTo) == StandingSum(b, upTo) - b.made[i].amount
  {
    if upTo - 1 == i {
      StandingSumFrame(b, c, i);
    } else {
      assert SameStanding(b, c, upTo - 1);
      StandingSumEnds(b, c, i, upTo - 1);
    }
  }

  lemma NoneStanding(b: Book, upTo: nat)
    requires upTo <= |b.made|
    requires forall i | 0 <= i < upTo :: b.made[i].amount > 0 ==> !Standing(b, b.made[i])
    ensures StandingSum(b, upTo) == 0
  {
    if upTo > 0 { NoneStanding(b, upTo - 1); }
  }

  lemma StandingAtMostSum(b: Book, i: nat, upTo: nat)
    requires i < upTo <= |b.made| && Standing(b, b.made[i])
    ensures b.made[i].amount <= StandingSum(b, upTo)
  {
    if i < upTo - 1 { StandingAtMostSum(b, i, upTo - 1); }
  }

  lemma TakeKeeps(b: Book, a: nat)
    requires Consistent(b)
    ensures Consistent(Step(b, Take(a)))
  {
    var c := Step(b, Take(a));
    if c != b { StandingSumFrame(b, c, |b.made|); }
  }

  lemma WaitKeeps(b: Book, d: nat)
    requires Consistent(b)
    ensures Consistent(Step(b, Wait(d)))
  {
    var c := Step(b, Wait(d));
    if Lapsed(b, b.now + d) { NoneStanding(c, |c.made|); } else { StandingSumFrame(b, c, |b.made|); }
  }

  lemma GiveKeeps(b: Book, i: nat)
    requires Consistent(b) && !Late(b, Give(i))
    ensures Consistent(Step(b, Give(i)))
  {
    var c := Step(b, Give(i));
    if AfterLapse(b, i) {
      StandingSumFrame(b, c, |b.made|);
      forall j | 0 <= j < |c.made| && Standing(c, c.made[j]) && c.made[j].amount > 0
        ensures c.key.Held? && c.made[j].at + c.ttl <= c.key.expiresAt
      {
        StandingAtMostSum(b, j, |b.made|);
      }
    } else if c != b {
      StandingSumEnds(b, c, i, |b.made|);
      StandingAtMostSum(b, i, |b.made|);
      forall j | 0 <= j < |c.made| && Standing(c, c.made[j]) && c.made[j].amount > 0
        ensures c.key.Held? && c.made[j].at + c.ttl <= c.key.expiresAt
      {
        StandingAtMostSum(c, j, |c.made|);
      }
    }
  }

  /** The counter is exact in every run whose releases are punctual. */
  lemma {:induction false} PunctualRunIsExact(b: Book, events: seq<Event>)
    requires Consistent(b) && Punctual(b, events)
    ensures Consistent(Run(b, events))
    decreases events
  {
    if events != [] {
      match events[0] {
        case Wait(d) => WaitKeeps(b, d);
        case Take(a) => TakeKeeps(b, a);
        case Give(i) => GiveKeeps(b, i);
      }
      PunctualRunIsExact(Step(b, events[0]), events[1..]);
    }
  }

  /** The reservations that must still be counted: not released, and younger than the TTL. */
  function YoungSum(b: Book, upTo: nat): nat
    requires upTo <= |b.made|
  {
    if upTo == 0 then 0
    else YoungSum(b, upTo - 1) +
         if !b.made[upTo - 1].released && b.now < b.made[upTo - 1].at + b.ttl then b.made[upTo - 1].amount else 0
  }

  lemma YoungStand(b: Book, upTo: nat)
    requires upTo <= |b.made| && Consistent(b)
    ensures YoungSum(b, upTo) <= StandingSum(b, upTo)
  {
    if upTo > 0 { YoungStand(b, upTo - 1); }
  }

  /** A fresh key under a positive TTL. */
  function Opened(ttl: int, now: int): Book {
    Book(Absent, now, ttl, 0, [], 0)
  }

  /**
   * The reservation clock: at every point of a punctual run the counter is not negative and
   * covers every unreleased reservation made less than one TTL ago, although one TTL covers
   * the whole key and every Reserve moves it.
   */
  lemma ReservationsStayCounted(ttl: int, start: int, events: seq<Event>)
    requires ttl > 0 && Punctual(Opened(ttl, start), events)
    ensures var b := Run(Opened(ttl, start), events);
      0 <= YoungSum(b, |b.made|) <= ValueAt(b.key, b.now)
  {
    PunctualRunIsExact(Opened(ttl, start), events);
    YoungStand(Run(Opened(ttl, start), events), |Run(Opened(ttl, start), events).made|);
  }

  // ---------------------------------------------------------------------------
  // Every run, late releases and all
  // ---------------------------------------------------------------------------

  /** What holds whatever comes late: the counter covers what stands, but for what was taken. */
  ghost predicate Covered(b: Book) {
    && b.ttl > 0
    && (b.key.Held? ==> b.now < b.key.expiresAt && IsInt64(b.key.amount) && b.key.amount >= 0)
    && StandingSum(b, |b.made|) <= ValueAt(b.key, b.now) + b.taken
    && (forall i | 0 <= i < |b.made| ::
          b.made[i].at <= b.now && b.made[i].generation <= b.generation && b.made[i].amount <= INT64_MAX)
    && (forall i | 0 <= i < |b.made| && Standing(b, b.made[i]) && b.key.Held? ::
          b.made[i].at + b.ttl <= b.key.expiresAt)
    && (forall i | 0 <= i < |b.made| && b.made[i].generation < b.generation && !b.made[i].released ::
          b.made[i].at + b.ttl <= b.now)
  }

  lemma WaitKeepsCovered(b: Book, d: nat)
    requires Covered(b)
    ensures Covered(Step(b, Wait(d)))
  {
    var c := Step(b, Wait(d));
    if Lapsed(b, b.now + d) { NoneStanding(c, |c.made|); } else { StandingSumFrame(b, c, |b.made|); }
  }

  lemma TakeKeepsCovered(b: Book, a: nat)
    requires Covered(b)
    ensures Covered(Step(b, Take(a)))
  {
    StandingSumFrame(b, Step(b, Take(a)), |b.made|);
  }

  lemma GiveKeepsCovered(b: Book, i: nat)
    requires Covered(b)
    ensures Covered(Step(b, Give(i)))
  {
    var c := Step(b, Give(i));
    if AfterLapse(b, i) {
      StandingSumFrame(b, c, |b.made|);
    } else if c != b {
      StandingSumEnds(b, c, i, |b.made|);
    }
  }

  lemma {:induction false} RunKeepsCovered(b: Book, events: seq<Event>)
    requires Covered(b)
    ensures Covered(Run(b, events))
    decreases events
  {
    if events != [] {
      match events[0] {
        case Wait(d) => WaitKeepsCovered(b, d);
        case Take(a) => TakeKeepsCovered(b, a);
        case Give(i) => GiveKeepsCovered(b, i);
      }
      RunKeepsCovered(Step(b, events[0]), events[1..]);
    }
  }

  lemma YoungStandCovered(b: Book, upTo: nat)
    requires upTo <= |b.made| && Covered(b)
    ensures YoungSum(b, upTo) <= StandingSum(b, upTo)
  {
    if upTo > 0 { YoungStandCovered(b, upTo - 1); }
  }

  /**
   * In every run, however late its releases: the counter is not negative, and falls short of the unreleased
   * reservations made less than one TTL ago by no more than late releases have taken since the key last lapsed.
   */
  lemma ShortByNoMoreThanTaken(ttl: int, start: int, events: seq<Event>)
    requires ttl > 0
    ensures var b := Run(Opened(ttl, start), events);
      0 <= ValueAt(b.key, b.now) && YoungSum(b, |b.made|) <= ValueAt(b.key, b.now) + b.taken
  {
    RunKeepsCovered(Opened(ttl, start), events);
    YoungStandCovered(Run(Opened(ttl, start), events), |Run(Opened(ttl, start), events).made|);
  }

  /**
   * A release that comes after the key has lapsed is the one thing that breaks it, and exactly when it
   * takes something from somebody: the standing reservations stay covered if and only if the release
   * comes in time, or takes nothing, or nothing stands.
   */
  lemma LateReleaseUncovers(b: Book, i: nat)
    requires Consistent(b) && i < |b.made| && !b.made[i].released
    ensures var c := Step(b, Give(i));
      StandingSum(c, |c.made|) <= ValueAt(c.key, c.now)
      <==> !AfterLapse(b, i) || b.made[i].amount == 0 || StandingSum(b, |b.made|) == 0
  {
    if Late(b, Give(i)) {
      StandingSumFrame(b, Step(b, Give(i)), |b.made|);
      assert ValueAt(b.key, b.now) == StandingSum(b, |b.made|);
    } else {
      GiveKeeps(b, i);
    }
  }

  /** Such a run exists: the second reservation is one second old and no longer counted. */
  lemma LateReleaseExample()
    ensures var b := Run(Opened(120, 0), [Take(5), Wait(120), Take(5), Wait(1), Give(0)]);
      YoungSum(b, |b.made|) == 5 && ValueAt(b.key, b.now) == 0
  {
    var b1 := Step(Opened(120, 0), Take(5));
    var b2 := Step(b1, Wait(120));
    var b3 := Step(b2, Take(5));
    var b4 := Step(b3, Wait(1));
    var b5 := Step(b4, Give(0));
    assert b5 == Book(Absent, 121, 120, 1, [Reservation(5, 0, 0, true), Reservation(5, 120, 1, false)], 5);
    assert Run(b4, [Give(0)]) == b5;
    assert Run(b3, [Wait(1), Give(0)]) == b5;
    assert Run(b2, [Take(5), Wait(1), Give(0)]) == b5;
    assert Run(b1, [Wait(120), Take(5), Wait(1), Give(0)]) == b5;
    assert YoungSum(b5, 1) == 0;
  }
}
