/**
The voucher nonces of one (owner, provider) pair: a Redis counter that many callers
increment, and that whoever finds it missing seeds from the chain. Every Redis command
and every chain read is one step, so callers interleave freely; meanwhile the chain
settles nonces that were handed out, and Redis may lose the counter.
*/
module Nonce {
  import opened Arithmetic
  import opened Text
  import opened Wrappers

  type Caller = nat

  /** Where a caller of IncrNonce stands: before EXISTS, after its answer, or holding the chain's last nonce as seed. */
  datatype Pc = Idle | Saw(present: bool) | Holds(seed: int)

  /** `last` is the chain's last nonce; `issued` are the nonces handed back to callers, in order. */
  datatype World = World(key: Option<int>, last: int, pcs: map<Caller, Pc>, issued: seq<int>)

  datatype Event =
    | Exists(c: Caller)
    | Incr(c: Caller, reply: Reply)
    | ReadChain(c: Caller, ok: bool)
    | SeedIncr(c: Caller, reply: Reply)
    | Settle(nonce: int)
    | Loss

  function PcOf(w: World, c: Caller): Pc {
    if c in w.pcs then w.pcs[c] else Idle
  }

  function At(w: World, c: Caller, pc: Pc): World {
    w.(pcs := w.pcs[c := pc])
  }

  /**
   * INCR, on a counter that is `from` when the key is absent: Redis itself counts an absent key as zero. A counter at
   * the greatest 64-bit integer is not moved, and whoever asks gets an error, though a missing key has been seeded.
   */
  function Take(w: World, c: Caller, from: int, reply: Reply): World {
    var n := (if w.key.Some? then w.key.value else from) + 1;
    var home := At(w, c, Idle);
    if n > INT64_MAX && !reply.Refused? then home.(key := Some(n - 1)) else
    match reply
    case Refused => home
    case Lost => home.(key := Some(n))
    case Answered => home.(key := Some(n), issued := w.issued + [n])
  }

  function Step(w: World, e: Event): World {
    match e
    case Exists(c) => if PcOf(w, c) == Idle then At(w, c, Saw(w.key.Some?)) else w
    case Incr(c, reply) => if PcOf(w, c) == Saw(true) then Take(w, c, 0, reply) else w
    case ReadChain(c, ok) =>
      if PcOf(w, c) != Saw(false) then w else At(w, c, if ok then Holds(w.last) else Idle)
    case SeedIncr(c, reply) => if PcOf(w, c).Holds? then Take(w, c, PcOf(w, c).seed, reply) else w
    case Settle(n) => if n in w.issued && n > w.last then w.(last := n) else w
    case Loss => w.(key := None)
  }

  function Run(w: World, events: seq<Event>): World
    decreases events
  {
    if events == [] then w else Run(Step(w, events[0]), events[1..])
  }

  predicate NobodyInside(w: World) {
    forall c | c in w.pcs :: w.pcs[c] == Idle
  }

  predicate AllSettled(w: World) {
    forall n | n in w.issued :: n <= w.last
  }

  /** Everything handed out is settled, no caller relies on the counter, and every seed held is the chain's nonce. */
  predicate SafeToLose(w: World) {
    && AllSettled(w)
    && forall c | c in w.pcs :: w.pcs[c] != Saw(true) && (w.pcs[c].Holds? ==> w.pcs[c].seed == w.last)
  }

  predicate Orderly(w: World, events: seq<Event>)
    decreases events
  {
    events == [] || ((events[0] == Loss ==> SafeToLose(w)) && Orderly(Step(w, events[0]), events[1..]))
  }

  predicate EveryReplyArrives(events: seq<Event>) {
    forall e | e in events :: (e.Incr? || e.SeedIncr?) ==> e.reply != Lost
  }

  predicate Start(w: World) {
    w.key.None? && w.issued == [] && NobodyInside(w)
  }

  // ---------------------------------------------------------------------------
  // Fresh nonces, in every interleaving
  // ---------------------------------------------------------------------------

  predicate Increasing(s: seq<int>) {
    forall i, j :: 0 <= i < j < |s| ==> s[i] < s[j]
  }

  /** What an interleaving keeps: `origin` is the chain's nonce at the start. */
  predicate Inv(w: World, origin: int) {
    && Increasing(w.issued)
    && (forall n | n in w.issued :: n > origin)
    && (w.last == origin || w.last in w.issued) && w.last >= origin
    && (w.key.Some? ==> w.key.value >= w.last && forall n | n in w.issued :: n <= w.key.value)
    && (w.key.None? ==> AllSettled(w))
    && forall c | c in w.pcs :: PcSound(w, w.pcs[c])
  }

  /** A caller that saw the key relies on it; one that holds a seed may seed only with the chain's current nonce. */
  predicate PcSound(w: World, pc: Pc) {
    && (pc == Saw(true) ==> w.key.Some?)
    && (pc.Holds? ==> pc.seed <= w.last && (w.key.None? ==> pc.seed == w.last))
  }

  /** The nonce is new, follows every earlier one, and the contract would accept it now. */
  predicate Fresh(w: World, n: int) {
    n > w.last && forall m | m in w.issued :: n > m
  }

  /** One step keeps the invariant and hands out, if anything, one fresh nonce. */
  lemma StepKeeps(w: World, e: Event, origin: int)
    requires Inv(w, origin) && (e == Loss ==> SafeToLose(w))
    ensures Inv(Step(w, e), origin)
    ensures var after := Step(w, e).issued;
      after == w.issued || exists n :: after == w.issued + [n] && Fresh(w, n)
  {
    if (e.Incr? && PcOf(w, e.c) == Saw(true)) || (e.SeedIncr? && PcOf(w, e.c).Holds?) {
      TakeKeeps(w, e.c, if e.Incr? then 0 else PcOf(w, e.c).seed, e.reply, origin);
    }
  }

  lemma TakeKeeps(w: World, c: Caller, from: int, reply: Reply, origin: int)
    requires Inv(w, origin) && (w.key.None? ==> from == w.last)
    ensures Inv(Take(w, c, from, reply), origin)
    ensures var after := Take(w, c, from, reply).issued;
      after == w.issued || exists n :: after == w.issued + [n] && Fresh(w, n)
  {
    var n := (if w.key.Some? then w.key.value else from) + 1;
    assert Fresh(w, n);
    IncreasingSnoc(w.issued, n);
    hide Increasing;
  }

  lemma IncreasingSnoc(s: seq<int>, n: int)
    requires Increasing(s) && forall m | m in s :: n > m
    ensures Increasing(s + [n]) && forall m :: m in s + [n] <==> m in s || m == n
  {
    assert forall i | 0 <= i < |s| :: (s + [n])[i] == s[i] && s[i] in s;
  }

  /** Exactly when losing the counter keeps the invariant. */
  lemma LossKeepsIffSafe(w: World, origin: int)
    requires Inv(w, origin)
    ensures Inv(Step(w, Loss), origin) <==> SafeToLose(w)
  {
  }

  predicate FreshWhenIssued(w: World, events: seq<Event>)
    decreases events
  {
    events == [] ||
    (var w' := Step(w, events[0]);
     (|w'.issued| > |w.issued| ==> Fresh(w, w'.issued[|w.issued|])) && FreshWhenIssued(w', events[1..]))
  }

  lemma {:induction false} RunKeeps(w: World, events: seq<Event>, origin: int)
    requires Inv(w, origin) && Orderly(w, events)
    ensures Inv(Run(w, events), origin) && FreshWhenIssued(w, events)
    decreases events
  {
    if events != [] {
      StepKeeps(w, events[0], origin);
      RunKeeps(Step(w, events[0]), events[1..], origin);
    }
  }

  /** However the callers interleave, no nonce is handed out twice and each was above the chain's when it was. */
  lemma NoncesAreFresh(w: World, events: seq<Event>)
    requires Start(w) && Orderly(w, events)
    ensures Increasing(Run(w, events).issued)
    ensures FreshWhenIssued(w, events)
  {
    RunKeeps(w, events, w.last);
  }

  // ---------------------------------------------------------------------------
  // No gaps while every reply arrives
  // ---------------------------------------------------------------------------

  /** The nonces count up from the chain's first one, and the counter, or the chain, holds the last. */
  predicate Dense(w: World, origin: int) {
    && (forall i | 0 <= i < |w.issued| :: w.issued[i] == origin + 1 + i)
    && (w.key.Some? ==> w.key.value == origin + |w.issued|)
    && (w.key.None? ==> w.last == origin + |w.issued|)
  }

  lemma StepDense(w: World, e: Event, origin: int)
    requires Inv(w, origin) && Dense(w, origin)
    requires e == Loss ==> SafeToLose(w)
    requires (e.Incr? || e.SeedIncr?) ==> e.reply != Lost
    ensures Dense(Step(w, e), origin)
  {
    if e == Loss && w.issued != [] {
      assert w.issued[|w.issued| - 1] in w.issued;
    }
    if e.Settle? && w.key.None? {
      assert AllSettled(w);
    }
  }

  lemma {:induction false} RunDense(w: World, events: seq<Event>, origin: int)
    requires Inv(w, origin) && Dense(w, origin) && Orderly(w, events) && EveryReplyArrives(events)
    ensures Dense(Run(w, events), origin)
    decreases events
  {
    if events != [] {
      assert events[0] in events && forall e | e in events[1..] :: e in events;
      StepDense(w, events[0], origin);
      StepKeeps(w, events[0], origin);
      RunDense(Step(w, events[0]), events[1..], origin);
    }
  }

  /** The nonces handed out are last + 1, last + 2, ... without a gap, however the callers interleave. */
  lemma NoncesAreConsecutive(w: World, events: seq<Event>)
    requires Start(w) && Orderly(w, events) && EveryReplyArrives(events)
    ensures var issued := Run(w, events).issued; forall i | 0 <= i < |issued| :: issued[i] == w.last + 1 + i
  {
    RunDense(w, events, w.last);
  }

  // ---------------------------------------------------------------------------
  // What losing the counter costs
  // ---------------------------------------------------------------------------

  /** A whole call with nobody else around: the counter it leaves and the nonce it returns. */
  function Solo(key: Option<int>, chain: Option<int>): (Option<int>, Option<int>) {
    if key.None? && chain.None? then (None, None)
    else
      var n := (if key.Some? then key.value else chain.value) + 1;
      if n > INT64_MAX then (Some(n - 1), None) else (Some(n), Some(n))
  }

  function SoloEvents(c: Caller, present: bool, chainUp: bool): seq<Event> {
    if present then [Exists(c), Incr(c, Answered)]
    else if chainUp then [Exists(c), ReadChain(c, true), SeedIncr(c, Answered)]
    else [Exists(c), ReadChain(c, false)]
  }

  lemma SoloIsARun(w: World, c: Caller, chainUp: bool)
    requires PcOf(w, c) == Idle
    ensures var (key, n) := Solo(w.key, if chainUp then Some(w.last) else None);
      var w' := Run(w, SoloEvents(c, w.key.Some?, chainUp));
      && w'.key == key && w'.last == w.last && PcOf(w', c) == Idle
      && w'.issued == if n.Some? then w.issued + [n.value] else w.issued
  {
    var events := SoloEvents(c, w.key.Some?, chainUp);
    RunTwo(w, events);
  }

  lemma RunTwo(w: World, events: seq<Event>)
    requires 2 <= |events| <= 3
    ensures Run(w, events) ==
            var two := Step(Step(w, events[0]), events[1]); if |events| == 3 then Step(two, events[2]) else two
  {
    assert events[1..][1..] == events[2..];
    assert Run(Step(Step(w, events[0]), events[1]), events[2..]) == Run(w, events);
    if |events| == 3 {
      assert events[2..][1..] == [];
    }
  }

  /**
   * The counter is lost between calls: the next nonce was never handed out before exactly when everything
   * handed out is settled. Otherwise it repeats the oldest unsettled one.
   */
  lemma LossIsHarmlessWhenAllIsSettled(w: World, c: Caller, origin: int)
    requires Inv(w, origin) && Dense(w, origin) && NobodyInside(w) && w.last < INT64_MAX
    ensures var w' := Run(Step(w, Loss), SoloEvents(c, false, true));
      && w'.issued == w.issued + [w.last + 1]
      && (w.last + 1 !in w.issued <==> AllSettled(w))
  {
    SoloIsARun(Step(w, Loss), c, true);
    if !AllSettled(w) {
      var i := w.last - origin;
      assert w.issued[i] == w.last + 1;
    }
  }

  /**
   * The counter is lost inside a call that already saw it: INCR starts over, so the call returns 1, which is
   * fresh exactly when the chain has settled nothing and nothing was handed out.
   */
  lemma LossInsideACallStartsOver(w: World, c: Caller, origin: int)
    requires Inv(w, origin) && origin >= 0 && PcOf(w, c) == Saw(true)
    ensures var lost := Step(w, Loss);
      && Step(lost, Incr(c, Answered)).issued == w.issued + [1]
      && (Fresh(lost, 1) <==> w.last == 0 && w.issued == [])
  {
    if w.issued != [] {
      assert w.issued[0] in w.issued;
    }
  }

  /**
   * The counter is lost while a call holds a seed: it returns the next nonce after that seed, which is fresh exactly
   * when the chain has not moved on since, if everything handed out is settled.
   */
  lemma LossUnderAHeldSeed(w: World, c: Caller, origin: int)
    requires Inv(w, origin) && PcOf(w, c).Holds? && AllSettled(w) && w.last < INT64_MAX
    ensures var lost, seed := Step(w, Loss), PcOf(w, c).seed;
      && Step(lost, SeedIncr(c, Answered)).issued == w.issued + [seed + 1]
      && (Fresh(lost, seed + 1) <==> seed == w.last)
  {
  }

  /** A counter command whose reply is lost has counted: the next call skips that nonce. */
  lemma LostReplySkipsANonce(w: World, c: Caller)
    requires PcOf(w, c) == Idle && w.key.Some? && w.key.value <= INT64_MAX - 2
    ensures var lost := Run(w, [Exists(c), Incr(c, Lost)]);
      && lost.issued == w.issued && PcOf(lost, c) == Idle
      && Run(lost, [Exists(c), Incr(c, Answered)]).issued == w.issued + [w.key.value + 2]
  {
    var lost := Run(w, [Exists(c), Incr(c, Lost)]);
    RunTwo(w, [Exists(c), Incr(c, Lost)]);
    RunTwo(lost, [Exists(c), Incr(c, Answered)]);
  }

  /** The chain takes a nonce that was handed out exactly when it is above the last one it took. */
  lemma ChainTakesOnlyHigherNonces(w: World, n: int)
    requires n in w.issued
    ensures Step(w, Settle(n)) == w.(last := if n > w.last then n else w.last)
  {
  }

  // ---------------------------------------------------------------------------
  // The signer
  // ---------------------------------------------------------------------------

  type Pair = (string, string)

  function Lookup(keys: map<Pair, int>, pair: Pair): Option<int> {
    if pair in keys then Some(keys[pair]) else None
  }

  class Signer {
    var keys: map<Pair, int>

    /** The counter that a pair of addresses uses. */
    function CounterOf(owner: string, provider: string): Option<int>
      reads this
    {
      Lookup(keys, (Lower(owner), Lower(provider)))
    }

    constructor ()
      ensures keys == map[]
    {
      keys := map[];
    }

    /**
     * IncrNonce: the addresses are lower-cased first, so every spelling shares one counter, and no other pair's
     * counter moves. `looked` is how EXISTS goes, `reply` how the counter command does. `None` is an error: then
     * the counter is as it was, unless the reply was lost.
     */
    method IncrNonce(owner: string, provider: string, looked: bool, chain: Option<int>, reply: Reply)
      returns (n: Option<int>)
      modifies this
      // It counts on from the counter, or else from the chain, as far as 64 bits go ...
      ensures var was := old(CounterOf(owner, provider));
        var base := if was.Some? then was else chain;
        var counts := looked && base.Some? && !reply.Refused?;
        && n == (if counts && reply.Answered? && base.value < INT64_MAX then Some(base.value + 1) else None)
        && CounterOf(owner, provider) ==
           if !counts then was else if base.value < INT64_MAX then Some(base.value + 1) else base
      // ... as `Solo` says, which is a run of the steps above.
      ensures looked && reply.Answered? ==>
                (CounterOf(owner, provider), n) == Solo(old(CounterOf(owner, provider)), chain)
      // One counter for every spelling of the pair, and no other pair's counter moves.
      ensures forall o, p | SameUpToCase(o, owner) && SameUpToCase(p, provider) ::
                CounterOf(o, p) == CounterOf(owner, provider)
      ensures forall o, p | !SameUpToCase(o, owner) || !SameUpToCase(p, provider) ::
                CounterOf(o, p) == old(CounterOf(o, p))
    {
      var pair := (Lower(owner), Lower(provider));
      forall o, p ensures (Lower(o), Lower(p)) == pair <==> SameUpToCase(o, owner) && SameUpToCase(p, provider) {
        LowerDecidesCase(o, owner);
        LowerDecidesCase(p, provider);
      }
      hide Lower, SameUpToCase;
      if !looked {
        return None;
      }
      if pair !in keys && chain.None? {
        return None;
      }
      if reply.Refused? {
        return None;
      }
      if pair !in keys {
        keys := keys[pair := chain.value];
      }
      if keys[pair] >= INT64_MAX {
        return None;
      }
      keys := keys[pair := keys[pair] + 1];
      return if reply.Lost? then None else Some(keys[pair]);
    }
  }
}
