/**
The resolver of the app's owner: a cached answer with a time to live, a cap on how
stale it may be served while lookups fail, and a pause between failing lookups. Calls
run one at a time under a mutex; within a call the clock moves on between readings.
*/
module OwnerCache {
  import opened Wrappers

  datatype Limits = Limits(ttl: nat, staleCap: nat, retryEvery: nat)

  function Longest(l: Limits): nat {
    if l.ttl > l.staleCap then l.ttl else l.staleCap
  }

  /** What a lookup on the chain comes back with; `Unregistered` is the zero address. */
  datatype Answer = Found(owner: string) | Unregistered | Failed

  /** `failed` stands for a non-nil lastErr. */
  datatype Cache = Cache(cached: Option<string>, fetchedAt: int, failed: bool, lastTry: int)

  /**
   * One call: the clock at the check of the time to live, at the check of the pause, at the end of the
   * lookup, and at the last reading; and how the lookup goes, if there is one.
   */
  datatype Call = Call(enter: int, gap: int, end: int, last: int, answer: Answer)

  predicate Ticks(c: Call) {
    c.enter <= c.gap <= c.end <= c.last
  }

  datatype Result = Owner(owner: string) | Error

  predicate Young(s: Cache, limit: nat, at: int) {
    s.cached.Some? && at - s.fetchedAt < limit
  }

  predicate Probes(l: Limits, named: bool, s: Cache, c: Call) {
    !Young(s, l.ttl, c.enter) && named && !(s.failed && c.gap - s.lastTry < l.retryEvery)
  }

  function StaleOrError(l: Limits, s: Cache, at: int): Result {
    if Young(s, l.staleCap, at) then Owner(s.cached.value) else Error
  }

  function Resolve(l: Limits, named: bool, s: Cache, c: Call): (Cache, Result) {
    if Young(s, l.ttl, c.enter) then (s, Owner(s.cached.value))
    else if !named then (s, Error)
    else if !Probes(l, named, s, c) then (s, StaleOrError(l, s, c.last))
    else
      var tried := s.(lastTry := c.end, failed := c.answer.Failed?);
      match c.answer
      case Failed => (tried, StaleOrError(l, s, c.last))
      case Unregistered => (tried, Error)
      case Found(owner) => (tried.(cached := Some(owner), fetchedAt := c.last), Owner(owner))
  }

  /** What a call returned, when it was judged, and how many lookups there had been by then. */
  datatype Returned = Returned(result: Result, at: int, probes: nat)

  /** `probes` are the calls that reached the chain. */
  datatype World = World(cache: Cache, clock: int, probes: seq<Call>, returned: seq<Returned>)

  /** When the returned value was judged: at the first check if that one settles it. */
  function JudgedAt(l: Limits, s: Cache, c: Call): int {
    if Young(s, l.ttl, c.enter) then c.enter else c.last
  }

  function Step(l: Limits, named: bool, w: World, c: Call): World {
    var (cache, result) := Resolve(l, named, w.cache, c);
    var probes := if Probes(l, named, w.cache, c) then w.probes + [c] else w.probes;
    World(cache, c.last, probes, w.returned + [Returned(result, JudgedAt(l, w.cache, c), |probes|)])
  }

  function Run(l: Limits, named: bool, w: World, calls: seq<Call>): World
    decreases calls
  {
    if calls == [] then w else Run(l, named, Step(l, named, w, calls[0]), calls[1..])
  }

  /** The mutex: a call enters after the one before it has left. */
  predicate Serial(clock: int, calls: seq<Call>)
    decreases calls
  {
    calls == [] || (clock <= calls[0].enter && Ticks(calls[0]) && Serial(calls[0].last, calls[1..]))
  }

  function Boot(clock: int): World {
    World(Cache(None, 0, false, 0), clock, [], [])
  }

  /** The latest probe that found an owner. */
  function LatestFound(probes: seq<Call>): (c: Option<Call>)
    ensures c.Some? ==> c.value in probes && c.value.answer.Found?
  {
    if probes == [] then None
    else if probes[|probes| - 1].answer.Found? then Some(probes[|probes| - 1])
    else LatestFound(probes[..|probes| - 1])
  }

  /** The cache is what the latest successful lookup said, and knows the latest lookup of all. */
  predicate Remembers(w: World) {
    && (match LatestFound(w.probes)
        case None => w.cache.cached.None?
        case Some(c) => w.cache.cached == Some(c.answer.owner) && w.cache.fetchedAt == c.last)
    && (w.cache.failed <==> w.probes != [] && w.probes[|w.probes| - 1].answer.Failed?)
    && (w.cache.failed ==> w.cache.lastTry == w.probes[|w.probes| - 1].end)
    && forall p | p in w.probes :: Ticks(p) && p.last <= w.clock
  }

  /** How long after a lookup the next one may begin. */
  predicate Apart(l: Limits, p: Call, q: Call) {
    && (p.answer.Failed? ==> q.gap - p.end >= l.retryEvery)
    && (p.answer.Found? ==> q.gap - p.last >= l.ttl)
    && p.end <= q.gap
  }

  predicate AllApart(l: Limits, probes: seq<Call>) {
    forall i | 0 <= i < |probes| - 1 :: Apart(l, probes[i], probes[i + 1])
  }

  /**
   * An owner is the answer of the latest lookup that found one, and that lookup is the call itself or ended
   * less than the longest limit before the value was judged.
   */
  predicate Backed(l: Limits, probes: seq<Call>, r: Returned) {
    r.probes <= |probes| &&
    (r.result.Owner? ==>
       var found := LatestFound(probes[..r.probes]);
       found.Some? && found.value.answer == Found(r.result.owner) &&
       (r.at == found.value.last || r.at - found.value.last < Longest(l)))
  }

  predicate AllBacked(l: Limits, w: World) {
    forall r | r in w.returned :: Backed(l, w.probes, r)
  }

  lemma StepRemembers(l: Limits, named: bool, w: World, c: Call)
    requires Remembers(w) && w.clock <= c.enter && Ticks(c)
    ensures Remembers(Step(l, named, w, c))
  {
    var w' := Step(l, named, w, c);
    if Probes(l, named, w.cache, c) {
      assert w'.probes[..|w.probes|] == w.probes;
    }
  }

  lemma StepStaysApart(l: Limits, named: bool, w: World, c: Call)
    requires Remembers(w) && AllApart(l, w.probes) && w.clock <= c.enter && Ticks(c)
    ensures AllApart(l, Step(l, named, w, c).probes)
  {
    if Probes(l, named, w.cache, c) && w.probes != [] {
      assert w.probes[|w.probes| - 1] in w.probes;
      assert Apart(l, w.probes[|w.probes| - 1], c);
    }
  }

  lemma ResultIsBacked(l: Limits, named: bool, w: World, c: Call)
    requires Remembers(w) && Ticks(c)
    ensures var w' := Step(l, named, w, c);
      Backed(l, w'.probes, Returned(Resolve(l, named, w.cache, c).1, JudgedAt(l, w.cache, c), |w'.probes|))
  {
    hide LatestFound;
    var w' := Step(l, named, w, c);
    assert w'.probes[..|w'.probes|] == w'.probes;
    LatestSnoc(w.probes, c);
  }

  lemma LatestSnoc(probes: seq<Call>, c: Call)
    ensures LatestFound(probes + [c]) == if c.answer.Found? then Some(c) else LatestFound(probes)
  {
    assert (probes + [c])[..|probes|] == probes;
  }

  lemma StaysBacked(l: Limits, probes: seq<Call>, more: seq<Call>, r: Returned)
    requires Backed(l, probes, r)
    ensures Backed(l, probes + more, r)
  {
    hide LatestFound;
    assert (probes + more)[..r.probes] == probes[..r.probes];
  }

  lemma StepStaysBacked(l: Limits, named: bool, w: World, c: Call)
    requires Remembers(w) && AllBacked(l, w) && Ticks(c)
    ensures AllBacked(l, Step(l, named, w, c))
  {
    hide LatestFound, Backed;
    var w' := Step(l, named, w, c);
    var more := if Probes(l, named, w.cache, c) then [c] else [];
    assert w'.probes == w.probes + more;
    ResultIsBacked(l, named, w, c);
    forall r | r in w'.returned ensures Backed(l, w'.probes, r) {
      if r in w.returned {
        StaysBacked(l, w.probes, more, r);
      }
    }
  }

  lemma {:induction false} RunKeeps(l: Limits, named: bool, w: World, calls: seq<Call>)
    requires Remembers(w) && AllApart(l, w.probes) && AllBacked(l, w) && Serial(w.clock, calls)
    ensures var w' := Run(l, named, w, calls);
      Remembers(w') && AllApart(l, w'.probes) && AllBacked(l, w')
    decreases calls
  {
    if calls != [] {
      StepRemembers(l, named, w, calls[0]);
      StepStaysApart(l, named, w, calls[0]);
      StepStaysBacked(l, named, w, calls[0]);
      RunKeeps(l, named, Step(l, named, w, calls[0]), calls[1..]);
    }
  }

  // ---------------------------------------------------------------------------
  // What every run guarantees
  // ---------------------------------------------------------------------------

  /** Any owner returned was the latest owner the chain named, less than max(ttl, staleCap) before. */
  lemma OwnersAreRecentAnswers(l: Limits, named: bool, clock: int, calls: seq<Call>, r: Returned)
    requires Serial(clock, calls)
    requires r in Run(l, named, Boot(clock), calls).returned && r.result.Owner?
    ensures var probes := Run(l, named, Boot(clock), calls).probes;
      && r.probes <= |probes|
      && var found := LatestFound(probes[..r.probes]);
         found.Some? && found.value.answer == Found(r.result.owner)
         && (r.at == found.value.last || r.at - found.value.last < l.ttl || r.at - found.value.last < l.staleCap)
  {
    RunKeeps(l, named, Boot(clock), calls);
  }

  /** A lookup after a failing one begins at least retryEvery later, one after an owner was found at least ttl later. */
  lemma LookupsAreRationed(l: Limits, named: bool, clock: int, calls: seq<Call>, i: nat)
    requires Serial(clock, calls)
    requires i + 1 < |Run(l, named, Boot(clock), calls).probes|
    ensures var probes := Run(l, named, Boot(clock), calls).probes;
      && (probes[i].answer.Failed? ==> probes[i + 1].gap - probes[i].end >= l.retryEvery)
      && (probes[i].answer.Found? ==> probes[i + 1].gap - probes[i].last >= l.ttl)
  {
    RunKeeps(l, named, Boot(clock), calls);
    assert Apart(l, Run(l, named, Boot(clock), calls).probes[i], Run(l, named, Boot(clock), calls).probes[i + 1]);
  }

  /** The zero address is not remembered: once the cache is old, every further call asks the chain again. */
  lemma UnregisteredIsNotRationed(l: Limits, s: Cache, c: Call, d: Call)
    requires Probes(l, true, s, c) && c.answer.Unregistered?
    requires Ticks(c) && Ticks(d) && c.last <= d.enter
    ensures Probes(l, true, Resolve(l, true, s, c).0, d)
  {
  }

  /**
   * Nor does it withdraw the cached owner: when the lookup after it fails, the old owner is served again,
   * exactly until the stale cap counted from when the chain last named it.
   */
  lemma UnregisteredDoesNotRevoke(l: Limits, s: Cache, c: Call, d: Call)
    requires Probes(l, true, s, c) && c.answer.Unregistered? && s.cached.Some?
    requires Ticks(c) && Ticks(d) && c.last <= d.enter && d.answer.Failed?
    ensures Resolve(l, true, s, c).1 == Error
    ensures Resolve(l, true, Resolve(l, true, s, c).0, d).1 ==
            if d.last - s.fetchedAt < l.staleCap then Owner(s.cached.value) else Error
  {
    UnregisteredIsNotRationed(l, s, c, d);
  }

  class OwnerResolver {
    const limits: Limits
    const named: bool
    var cached: Option<string>
    var fetchedAt: int
    var failed: bool
    var lastTry: int

    constructor (limits: Limits, named: bool)
      ensures this.limits == limits && this.named == named && Current() == Cache(None, 0, false, 0)
    {
      this.limits, this.named := limits, named;
      cached, fetchedAt, failed, lastTry := None, 0, false, 0;
    }

    function Current(): Cache
      reads this
    {
      Cache(cached, fetchedAt, failed, lastTry)
    }

    /** The resolver; the lookup is made only where `Probes` says so. */
    method Lookup(c: Call) returns (r: Result, probed: bool)
      modifies this
      ensures (Current(), r) == Resolve(limits, named, old(Current()), c)
      ensures probed <==> Probes(limits, named, old(Current()), c)
      // In full: the cached owner while it is young, or while lookups fail and it is not too stale; else the chain's.
      ensures var young := old(cached).Some? && c.enter - old(fetchedAt) < limits.ttl;
        var stale := old(cached).Some? && c.last - old(fetchedAt) < limits.staleCap;
        var paused := old(failed) && c.gap - old(lastTry) < limits.retryEvery;
        && (probed <==> !young && named && !paused)
        && r == (if young || (named && stale && (paused || c.answer.Failed?)) then Owner(old(cached).value)
                 else if named && !paused && c.answer.Found? then Owner(c.answer.owner) else Error)
        && cached == (if probed && c.answer.Found? then Some(c.answer.owner) else old(cached))
        && fetchedAt == (if probed && c.answer.Found? then c.last else old(fetchedAt))
        && failed == (if probed then c.answer.Failed? else old(failed))
        && lastTry == if probed then c.end else old(lastTry)
    {
      if cached.Some? && c.enter - fetchedAt < limits.ttl {
        return Owner(cached.value), false;
      }
      if !named {
        return Error, false;
      }
      if failed && c.gap - lastTry < limits.retryEvery {
        if cached.Some? && c.last - fetchedAt < limits.staleCap {
          return Owner(cached.value), false;
        }
        return Error, false;
      }
      lastTry := c.end;
      failed := c.answer.Failed?;
      if failed {
        if cached.Some? && c.last - fetchedAt < limits.staleCap {
          return Owner(cached.value), true;
        }
        return Error, true;
      }
      if c.answer.Unregistered? {
        return Error, true;
      }
      cached := Some(c.answer.owner);
      fetchedAt := c.last;
      return Owner(c.answer.owner), true;
    }
  }
}
