/**
The broker's monitor: it groups the registered sessions by provider and user, adds up
what each pair burns, and asks for a deposit when a pair's balance falls below a
threshold.
*/
module Monitor {
  import opened Arithmetic
  import opened Sequences
  import opened Text
  import opened Wrappers

  /** A registered session, with its price already read as a number. */
  datatype Session = Session(user: string, provider: string, price: int, interval: int)

  type Pair = (string, string)

  datatype Aggregate = Aggregate(burn: int, interval: int)

  /** The key a session is added up under: both addresses as spelled, in lower case. */
  function PairOf(s: Session): Pair {
    (Lower(s.user), Lower(s.provider))
  }

  /**
   * `canon` reads an address and writes it back in lower case, whatever spelling it came in. A spelling that
   * is not already like that but for its case is read as one address and added up under another.
   */
  predicate Canonical(canon: string -> string, s: Session) {
    Lower(s.user) == canon(s.user)
  }

  ghost predicate Lawful(canon: string -> string) {
    && (forall a {:trigger Lower(a)} :: canon(Lower(a)) == canon(a))
    && (forall a {:trigger canon(canon(a))} :: canon(canon(a)) == canon(a))
  }

  /** Two sessions are added up together exactly when user and provider are spelled alike but for case. */
  lemma PairsFollowSpelling(s: Session, t: Session)
    ensures PairOf(s) == PairOf(t) <==> SameUpToCase(s.user, t.user) && SameUpToCase(s.provider, t.provider)
  {
    LowerDecidesCase(s.user, t.user);
    LowerDecidesCase(s.provider, t.provider);
  }

  // ---------------------------------------------------------------------------
  // The aggregates
  // ---------------------------------------------------------------------------

  function Burn(sessions: seq<Session>, k: Pair): int {
    if sessions == [] then 0
    else
      var s := sessions[|sessions| - 1];
      Burn(sessions[..|sessions| - 1], k) + if PairOf(s) == k then s.price else 0
  }

  predicate Occurs(sessions: seq<Session>, k: Pair) {
    exists s | s in sessions :: PairOf(s) == k
  }

  /** The longest voucher interval of the pair's sessions. */
  ghost predicate IsLongest(sessions: seq<Session>, k: Pair, interval: int) {
    && (exists s | s in sessions :: PairOf(s) == k && s.interval == interval)
    && (forall s | s in sessions && PairOf(s) == k :: s.interval <= interval)
  }

  ghost predicate Aggregates(sessions: seq<Session>, agg: map<Pair, Aggregate>) {
    && (forall k :: k in agg <==> Occurs(sessions, k))
    && (forall k | k in agg :: agg[k].burn == Burn(sessions, k) && IsLongest(sessions, k, agg[k].interval))
  }

  /** The users of each provider, as read addresses, each once. */
  ghost predicate Groups(canon: string -> string, sessions: seq<Session>, users: map<string, seq<string>>) {
    && (forall p | p in users :: NoRepeats(users[p]))
    && (forall p, u :: (p in users && u in users[p]) <==> Uses(canon, sessions, p, u))
  }

  /** Some session of provider `p` names user `u`, in whatever spelling. */
  predicate Uses(canon: string -> string, sessions: seq<Session>, p: string, u: string) {
    exists s | s in sessions :: Lower(s.provider) == p && canon(s.user) == u
  }

  /** Some session of the pair spells its user canonically. */
  predicate Spelled(canon: string -> string, sessions: seq<Session>, k: Pair) {
    exists s | s in sessions :: PairOf(s) == k && Canonical(canon, s)
  }

  lemma BurnSnoc(sessions: seq<Session>, s: Session, k: Pair)
    ensures Burn(sessions + [s], k) == Burn(sessions, k) + if PairOf(s) == k then s.price else 0
  {
    assert (sessions + [s])[..|sessions|] == sessions;
  }

  lemma {:induction false} BurnAppend(a: seq<Session>, b: seq<Session>, k: Pair)
    ensures Burn(a + b, k) == Burn(a, k) + Burn(b, k)
  {
    if b == [] {
      assert a + b == a;
    } else {
      BurnAppend(a, b[..|b| - 1], k);
      assert a + b == a + b[..|b| - 1] + [b[|b| - 1]];
      BurnSnoc(a + b[..|b| - 1], b[|b| - 1], k);
    }
  }

  lemma Remove(s: seq<Session>, i: nat)
    requires i < |s|
    ensures multiset(s[..i] + s[i + 1..]) == multiset(s) - multiset{s[i]}
  {
    assert s == s[..i] + [s[i]] + s[i + 1..];
  }

  /** The aggregates do not depend on the order in which the sessions are scanned. */
  lemma {:induction false} AggregatesIgnoreOrder(a: seq<Session>, b: seq<Session>, k: Pair)
    requires multiset(a) == multiset(b)
    ensures Burn(a, k) == Burn(b, k)
    decreases a
  {
    if a == [] {
      assert multiset(b) == multiset{};
    } else {
      var x := a[|a| - 1];
      var rest := a[..|a| - 1];
      assert a == rest + [x];
      assert x in multiset(b);
      var i :| 0 <= i < |b| && b[i] == x;
      assert b == b[..i] + [x] + b[i + 1..];
      Remove(b, i);
      assert multiset(rest) == multiset(a) - multiset{x};
      AggregatesIgnoreOrder(rest, b[..i] + b[i + 1..], k);
      BurnAppend(b[..i], b[i + 1..], k);
      BurnAppend(b[..i] + [x], b[i + 1..], k);
      BurnSnoc(b[..i], x, k);
    }
  }

  /** Whatever the scan order, the aggregate maps are the same map. */
  lemma SameAggregates(a: seq<Session>, b: seq<Session>, aggA: map<Pair, Aggregate>, aggB: map<Pair, Aggregate>)
    requires multiset(a) == multiset(b) && Aggregates(a, aggA) && Aggregates(b, aggB)
    ensures aggA == aggB
  {
    assert forall s :: s in a <==> s in multiset(a);
    assert forall s :: s in b <==> s in multiset(b);
    assert forall s :: s in a <==> s in b;
    forall k ensures k in aggA <==> k in aggB {
      assert Occurs(a, k) <==> Occurs(b, k);
    }
    forall k | k in aggA ensures aggA[k] == aggB[k] {
      AggregatesIgnoreOrder(a, b, k);
      assert IsLongest(a, k, aggA[k].interval) && IsLongest(b, k, aggB[k].interval);
    }
  }

  /** appendUnique. */
  method AppendUnique(slice: seq<string>, addr: string) returns (r: seq<string>)
    requires NoRepeats(slice)
    ensures NoRepeats(r) && r == if addr in slice then slice else slice + [addr]
  {
    for i := 0 to |slice|
      invariant addr !in slice[..i]
    {
      if slice[i] == addr {
        return slice;
      }
    }
    assert slice[..|slice|] == slice;
    return slice + [addr];
  }

  function WithUser(users: map<string, seq<string>>, p: string, u: string): map<string, seq<string>> {
    var known := if p in users then users[p] else [];
    users[p := if u in known then known else known + [u]]
  }

  function WithSession(agg: map<Pair, Aggregate>, k: Pair, price: int, interval: int): map<Pair, Aggregate> {
    agg[k := if k in agg then Aggregate(agg[k].burn + price, Max(agg[k].interval, interval))
             else Aggregate(price, interval)]
  }

  /** Track unique users per provider. */
  method ListUser(users: map<string, seq<string>>, p: string, u: string) returns (r: map<string, seq<string>>)
    requires forall q | q in users :: NoRepeats(users[q])
    ensures r == WithUser(users, p, u)
  {
    var listed := AppendUnique(if p in users then users[p] else [], u);
    r := users[p := listed];
  }

  /** Add a session to its pair's burn rate and interval. */
  method AddSession(agg: map<Pair, Aggregate>, k: Pair, price: int, interval: int) returns (r: map<Pair, Aggregate>)
    ensures r == WithSession(agg, k, price, interval)
  {
    if k in agg {
      var longest := agg[k].interval;
      if interval > longest {
        longest := interval;
      }
      return agg[k := Aggregate(agg[k].burn + price, longest)];
    }
    return agg[k := Aggregate(price, interval)];
  }

  lemma NothingGrouped(canon: string -> string)
    ensures Aggregates([], map[]) && Groups(canon, [], map[])
  {
  }

  lemma ListedOnce(canon: string -> string, sessions: seq<Session>, users: map<string, seq<string>>)
    requires Groups(canon, sessions, users)
    ensures forall p | p in users :: NoRepeats(users[p])
  {
  }

  /** The grouping loop of check. */
  method Group(canon: string -> string, sessions: seq<Session>)
    returns (users: map<string, seq<string>>, agg: map<Pair, Aggregate>)
    ensures Aggregates(sessions, agg) && Groups(canon, sessions, users)
  {
    hide *;
    users, agg := map[], map[];
    NothingGrouped(canon);
    assert sessions[..0] == [];
    for i := 0 to |sessions|
      invariant Aggregates(sessions[..i], agg) && Groups(canon, sessions[..i], users)
    {
      hide *;
      ListedOnce(canon, sessions[..i], users);
      var s := sessions[i];
      var users' := ListUser(users, Lower(s.provider), canon(s.user));
      var agg' := AddSession(agg, PairOf(s), s.price, s.interval);
      GroupsSnoc(canon, sessions[..i], s, users, users');
      AggregatesSnoc(sessions[..i], s, agg, agg');
      assert sessions[..i + 1] == sessions[..i] + [s];
      users, agg := users', agg';
    }
    assert sessions[..|sessions|] == sessions;
  }

  lemma GroupsSnoc(canon: string -> string, sessions: seq<Session>, s: Session,
                   users: map<string, seq<string>>, users': map<string, seq<string>>)
    requires Groups(canon, sessions, users)
    requires users' == WithUser(users, Lower(s.provider), canon(s.user))
    ensures Groups(canon, sessions + [s], users')
  {
    forall p, u ensures (p in users' && u in users'[p]) <==>
                        Uses(canon, sessions + [s], p, u)
    {
      UsesSnoc(canon, sessions, s, p, u);
    }
  }

  lemma UsesSnoc(canon: string -> string, sessions: seq<Session>, s: Session, p: string, u: string)
    ensures Uses(canon, sessions + [s], p, u) <==>
            (Uses(canon, sessions, p, u) || (Lower(s.provider) == p && canon(s.user) == u))
  {
    assert forall t :: t in sessions + [s] <==> t in sessions || t == s;
  }

  lemma AggregatesSnoc(sessions: seq<Session>, s: Session, agg: map<Pair, Aggregate>, agg': map<Pair, Aggregate>)
    requires Aggregates(sessions, agg)
    requires agg' == WithSession(agg, PairOf(s), s.price, s.interval)
    ensures Aggregates(sessions + [s], agg')
  {
    forall k ensures k in agg' <==> Occurs(sessions + [s], k) {
      assert s in sessions + [s];
      assert Occurs(sessions, k) ==> Occurs(sessions + [s], k);
    }
    forall k | k in agg'
      ensures agg'[k].burn == Burn(sessions + [s], k) && IsLongest(sessions + [s], k, agg'[k].interval)
    {
      BurnSnoc(sessions, s, k);
      NoBurn(sessions, k);
      assert s in sessions + [s];
      if k in agg {
        var t :| t in sessions && PairOf(t) == k && t.interval == agg[k].interval;
        assert t in sessions + [s];
      }
    }
  }

  lemma {:induction false} NoBurn(sessions: seq<Session>, k: Pair)
    ensures !Occurs(sessions, k) ==> Burn(sessions, k) == 0
  {
    if sessions != [] && !Occurs(sessions, k) {
      assert sessions[|sessions| - 1] in sessions;
      NoBurn(sessions[..|sessions| - 1], k);
    }
  }

  /**
   * The pairs check looks at, provider by provider in any order: `up` are the providers whose service and
   * balances can be read.
   */
  method Consider(providers: seq<string>, up: string -> bool, users: map<string, seq<string>>,
                  agg: map<Pair, Aggregate>)
    returns (pairs: seq<Pair>)
    requires NoRepeats(providers) && forall p | p in providers :: p in users && NoRepeats(users[p])
    ensures NoRepeats(pairs)
    ensures forall k :: k in pairs <==> k.1 in providers && up(k.1) && k.0 in users[k.1] && k in agg
  {
    pairs := [];
    for i := 0 to |providers|
      invariant NoRepeats(pairs)
      invariant forall k :: k in pairs <==> k.1 in providers[..i] && up(k.1) && k.0 in users[k.1] && k in agg
    {
      var p := providers[i];
      assert p !in providers[..i];
      if up(p) {
        for j := 0 to |users[p]|
          invariant NoRepeats(pairs)
          invariant forall k :: k in pairs <==> k in agg && ((k.1 in providers[..i] && up(k.1) && k.0 in users[k.1]) ||
                                                         (k.1 == p && k.0 in users[p][..j]))
        {
          var k := (users[p][j], p);
          if k in agg {
            assert k.0 !in users[p][..j];
            pairs := pairs + [k];
          }
        }
        assert users[p][..|users[p]|] == users[p];
      }
    }
    assert providers[..|providers|] == providers;
  }

  /**
   * One tick: each pair is considered at most once, and exactly the pairs with a canonically spelled session
   * at a readable provider, with the burn of the sessions so spelled.
   */
  method Check(canon: string -> string, sessions: seq<Session>, providers: seq<string>, up: string -> bool)
    returns (pairs: seq<Pair>, agg: map<Pair, Aggregate>)
    requires Lawful(canon)
    requires NoRepeats(providers) && forall p :: p in providers <==> exists s | s in sessions :: Lower(s.provider) == p
    ensures NoRepeats(pairs)
    ensures forall k :: k in pairs <==> up(k.1) && Spelled(canon, sessions, k)
    ensures Aggregates(sessions, agg) && forall k | k in pairs :: k in agg
  {
    var users: map<string, seq<string>>;
    users, agg := Group(canon, sessions);
    forall p | p in providers ensures p in users && NoRepeats(users[p]) {
      var s :| s in sessions && Lower(s.provider) == p;
      assert Uses(canon, sessions, p, canon(s.user));
    }
    pairs := Consider(providers, up, users, agg);
    forall k ensures k in pairs <==> up(k.1) && Spelled(canon, sessions, k) {
      ConsideredIsCanonical(canon, sessions, users, agg, k);
    }
  }

  lemma ConsideredIsCanonical(canon: string -> string, sessions: seq<Session>, users: map<string, seq<string>>,
                              agg: map<Pair, Aggregate>, k: Pair)
    requires Lawful(canon) && Aggregates(sessions, agg) && Groups(canon, sessions, users)
    ensures (k.1 in users && k.0 in users[k.1] && k in agg) <==> Spelled(canon, sessions, k)
  {
    if k.1 in users && k.0 in users[k.1] && k in agg {
      assert Occurs(sessions, k);
      var s :| s in sessions && PairOf(s) == k;
      assert Uses(canon, sessions, k.1, k.0);
      var t :| t in sessions && Lower(t.provider) == k.1 && canon(t.user) == k.0;
      assert canon(Lower(s.user)) == canon(s.user) && canon(canon(t.user)) == canon(t.user);
      assert Canonical(canon, s);
    }
    if s :| s in sessions && PairOf(s) == k && Canonical(canon, s) {
      assert Occurs(sessions, k);
      assert Uses(canon, sessions, k.1, k.0);
    }
  }

  // ---------------------------------------------------------------------------
  // Spelling
  // ---------------------------------------------------------------------------

  /** What the sessions of an address burn, over every spelling of it. */
  function BurnOfAddress(canon: string -> string, sessions: seq<Session>, k: Pair): int {
    if sessions == [] then 0
    else
      var s := sessions[|sessions| - 1];
      BurnOfAddress(canon, sessions[..|sessions| - 1], k) +
      if canon(s.user) == k.0 && Lower(s.provider) == k.1 then s.price else 0
  }

  /** The part of it that is spelled in a way the lookup misses. */
  function BurnMissed(canon: string -> string, sessions: seq<Session>, k: Pair): int {
    if sessions == [] then 0
    else
      var s := sessions[|sessions| - 1];
      BurnMissed(canon, sessions[..|sessions| - 1], k) +
      if canon(s.user) == k.0 && Lower(s.provider) == k.1 && !Canonical(canon, s) then s.price else 0
  }

  /**
   * The burn a considered pair is judged by is that of its address less the missed spellings: it is the whole
   * exactly when the missed ones add up to nothing.
   */
  lemma {:induction false} BurnIsWholeIffNoneMissed(canon: string -> string, sessions: seq<Session>, k: Pair)
    requires Lawful(canon) && canon(k.0) == k.0
    ensures BurnOfAddress(canon, sessions, k) == Burn(sessions, k) + BurnMissed(canon, sessions, k)
    ensures Burn(sessions, k) == BurnOfAddress(canon, sessions, k) <==> BurnMissed(canon, sessions, k) == 0
  {
    if sessions != [] {
      var s := sessions[|sessions| - 1];
      BurnIsWholeIffNoneMissed(canon, sessions[..|sessions| - 1], k);
      assert canon(Lower(s.user)) == canon(s.user);
    }
  }

  // ---------------------------------------------------------------------------
  // Threshold and target
  // ---------------------------------------------------------------------------

  /** The monitor's settings, in voucher intervals. */
  datatype Levels = Levels(topup: int, threshold: int)

  /** The seconds are multiplied out in 64 bits, the money is not. */
  function Target(a: Aggregate, levels: Levels): int {
    a.burn * WrapInt64(a.interval * levels.topup)
  }

  function Threshold(a: Aggregate, levels: Levels): int {
    a.burn * WrapInt64(a.interval * levels.threshold)
  }

  /** The deposit a balance calls for: up to the target, or the whole target when that would be nothing. */
  function Deposit(target: int, threshold: int, balance: int): Option<int> {
    if balance >= threshold then None
    else if target - balance <= 0 then Some(target)
    else Some(target - balance)
  }

  /** The amount check asks for, if any. */
  method TopUpAmount(a: Aggregate, levels: Levels, balance: int) returns (amount: Option<int>)
    ensures amount == Deposit(Target(a, levels), Threshold(a, levels), balance)
    ensures var threshold := a.burn * WrapInt64(a.interval * levels.threshold);
      var target := a.burn * WrapInt64(a.interval * levels.topup);
      amount == if balance >= threshold then None else Some(if balance < target then target - balance else target)
  {
    var threshold := a.burn * WrapInt64(a.interval * levels.threshold);
    if balance >= threshold {
      return None;
    }
    var topup := a.burn * WrapInt64(a.interval * levels.topup);
    var deficit := topup - balance;
    if deficit <= 0 {
      deficit := topup;
    }
    return Some(deficit);
  }

  /** The settings make sense, and the seconds fit. */
  predicate Sensible(a: Aggregate, levels: Levels) {
    && a.burn >= 0 && a.interval >= 0 && levels.topup >= levels.threshold >= 0
    && IsInt64(a.interval * levels.topup)
  }

  lemma TargetCoversThreshold(a: Aggregate, levels: Levels)
    requires Sensible(a, levels)
    ensures Target(a, levels) >= Threshold(a, levels)
  {
    Ordered(a.interval, levels.threshold, levels.topup);
    Ordered(a.interval, 0, levels.threshold);
    Ordered(a.burn, a.interval * levels.threshold, a.interval * levels.topup);
  }

  /** While the target covers the threshold a deposit brings the balance exactly to the target. */
  lemma DepositReachesTarget(a: Aggregate, levels: Levels, balance: int)
    requires Sensible(a, levels)
    ensures var target, threshold := Target(a, levels), Threshold(a, levels);
      var d := Deposit(target, threshold, balance);
      && (d.Some? <==> balance < threshold)
      && (d.Some? ==> d.value > 0 && balance + d.value == target)
      && Deposit(target, threshold, target) == None
  {
    TargetCoversThreshold(a, levels);
  }

  /**
   * When the target's seconds do not fit they wrap below zero, and a pair short of its threshold then gets a
   * request for the whole negative target.
   */
  lemma OverflowAsksForLessThanNothing(a: Aggregate, levels: Levels, balance: nat)
    requires a.burn > 0 && INT64_MAX < a.interval * levels.topup <= INT64_MAX - INT64_MIN
    requires balance < Threshold(a, levels)
    ensures Deposit(Target(a, levels), Threshold(a, levels), balance) == Some(Target(a, levels))
    ensures Target(a, levels) < 0
  {
    Positive(a.burn, -WrapInt64(a.interval * levels.topup));
    assert a.burn * -WrapInt64(a.interval * levels.topup) == -Target(a, levels);
  }

  /** The fallback amount is taken for some balance exactly when the target lies below the threshold. */
  lemma FallbackIffTargetBelowThreshold(target: int, threshold: int)
    ensures (exists balance :: Deposit(target, threshold, balance).Some? && target - balance <= 0) <==>
            target < threshold
  {
    if target < threshold {
      assert Deposit(target, threshold, target) == Some(target);
    }
  }

  /** One interval: what is spent, and the deposit, settled before the next look. */
  function After(target: int, threshold: int, balance: int, spent: nat): int {
    var left := balance - spent;
    var d := Deposit(target, threshold, left);
    if d.Some? then left + d.value else left
  }

  function Requests(target: int, threshold: int, balance: int, spending: seq<nat>): nat
    decreases spending
  {
    if spending == [] then 0
    else
      (if Deposit(target, threshold, balance - spending[0]).Some? then 1 else 0) +
      Requests(target, threshold, After(target, threshold, balance, spending[0]), spending[1..])
  }

  function Sum(spending: seq<nat>): nat {
    if spending == [] then 0 else spending[0] + Sum(spending[1..])
  }

  /**
   * No chatter: between two requests at least the gap between target and threshold is spent, so over any run
   * the requests are paid for by the spending.
   */
  lemma {:induction false} RequestsArePaidFor(target: int, threshold: int, balance: int, spending: seq<nat>)
    requires threshold <= target
    ensures Requests(target, threshold, balance, spending) * (target - threshold) <=
            Sum(spending) + if balance < target then target - balance else 0
    decreases spending
  {
    if spending != [] {
      var next := After(target, threshold, balance, spending[0]);
      var later := Requests(target, threshold, next, spending[1..]);
      RequestsArePaidFor(target, threshold, next, spending[1..]);
      assert (later + 1) * (target - threshold) == later * (target - threshold) + (target - threshold);
    }
  }

  /** And until the gap has been spent after a deposit there is no request at all. */
  lemma {:induction false} NoRequestBeforeTheGapIsSpent(target: int, threshold: int, balance: int, spending: seq<nat>)
    requires Sum(spending) <= balance - threshold
    ensures Requests(target, threshold, balance, spending) == 0
    decreases spending
  {
    if spending != [] {
      NoRequestBeforeTheGapIsSpent(target, threshold, balance - spending[0], spending[1..]);
    }
  }
}
