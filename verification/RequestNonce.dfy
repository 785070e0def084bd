/**
The authentication middleware: a signed message is accepted once. Its nonce is a Redis
key that is set only if absent and that expires with the message. Reading the clock and
setting the key are two steps, and requests interleave between them.
*/
module RequestNonce {
  import opened Text
  import opened Wrappers

  const MAX_FUTURE_WINDOW := 300
  const MILLIS := 1000

  /** The signed message; `expiresAt` is in whole seconds. */
  datatype Message = Message(action: string, expiresAt: int, nonce: string, provider: string, resource: string)

  /**
   * A request: the wallet header, whether both other headers are there, the decoded message, the address
   * recovered from the signature, and the `:id` of its route, "" when it has none.
   */
  datatype Request = Request(wallet: string, headers: bool, message: Option<Message>, signer: Option<string>,
                             id: string)

  datatype Options = Options(provider: string, strict: bool)

  datatype Rejection =
    | MissingHeaders | Malformed | Expired | TooFarAhead | BadSignature
    | OtherProvider | NoProvider | OtherResource | NoResource | Replayed | Internal

  /** A field binds the message to `here`; leaving it empty is let through outside strict mode. */
  function Bound(field: string, here: string, strict: bool, other: Rejection, none: Rejection): Option<Rejection> {
    if here == "" then None
    else if field != "" && field != here then Some(other)
    else if field == "" && strict then Some(none)
    else None
  }

  /** Every check before the nonce, in the order they are made, at `now` in whole seconds. */
  function Check(o: Options, r: Request, now: int): Option<Rejection> {
    if r.wallet == "" || !r.headers then Some(MissingHeaders)
    else if r.message.None? then Some(Malformed)
    else
      var m := r.message.value;
      if m.expiresAt <= now then Some(Expired)
      else if m.expiresAt > now + MAX_FUTURE_WINDOW then Some(TooFarAhead)
      else if r.signer.None? || Lower(r.signer.value) != Lower(r.wallet) then Some(BadSignature)
      else
        var provider := Bound(Lower(m.provider), Lower(o.provider), o.strict, OtherProvider, NoProvider);
        if provider.Some? then provider else Bound(m.resource, r.id, o.strict, OtherResource, NoResource)
  }

  type Key = (string, string)

  function KeyOf(r: Request): Key
    requires r.message.Some?
  {
    (Lower(r.wallet), r.message.value.nonce)
  }

  /** A request that passed the checks at `now` and has still to set its key. */
  datatype Pending = Pending(request: Request, now: int)

  datatype Acceptance = Acceptance(request: Request, at: int)

  /** `clock` and the keys' expiries are in milliseconds. */
  datatype World = World(clock: int, keys: map<Key, int>, pending: map<nat, Pending>, accepted: seq<Acceptance>)

  datatype Event = Tick(elapsed: nat) | Read(id: nat, request: Request) | Insert(id: nat, up: bool)

  predicate Live(keys: map<Key, int>, k: Key, clock: int) {
    k in keys && clock < keys[k]
  }

  /** The key's time to live: from the second that was read to the message's expiry. */
  function Ttl(p: Pending): int
    requires p.request.message.Some?
  {
    (p.request.message.value.expiresAt - p.now) * MILLIS
  }

  function Step(o: Options, w: World, e: Event): World {
    match e
    case Tick(elapsed) => w.(clock := w.clock + elapsed)
    case Read(id, r) =>
      var now := w.clock / MILLIS;
      if id in w.pending || Check(o, r, now).Some? then w else w.(pending := w.pending[id := Pending(r, now)])
    case Insert(id, up) =>
      if id !in w.pending then w
      else
        var p := w.pending[id];
        var left := w.(pending := w.pending - {id});
        if p.request.message.None? || !up || Live(w.keys, KeyOf(p.request), w.clock) then left
        else left.(keys := w.keys[KeyOf(p.request) := w.clock + Ttl(p)],
                   accepted := w.accepted + [Acceptance(p.request, w.clock)])
  }

  function Run(o: Options, w: World, events: seq<Event>): World
    decreases events
  {
    if events == [] then w else Run(o, Step(o, w, events[0]), events[1..])
  }

  function Boot(clock: int): World {
    World(clock, map[], map[], [])
  }

  /** A key is set before the message expires. */
  predicate InTime(w: World, e: Event) {
    e.Insert? && e.id in w.pending && w.pending[e.id].request.message.Some? ==>
      w.clock < w.pending[e.id].request.message.value.expiresAt * MILLIS
  }

  predicate AllInTime(o: Options, w: World, events: seq<Event>)
    decreases events
  {
    events == [] || (InTime(w, events[0]) && AllInTime(o, Step(o, w, events[0]), events[1..]))
  }

  // ---------------------------------------------------------------------------
  // At most once
  // ---------------------------------------------------------------------------

  /** The checks passed at a second that the clock has reached. */
  predicate PendingSound(o: Options, w: World, p: Pending) {
    Check(o, p.request, p.now).None? && p.now * MILLIS <= w.clock
  }

  function ExpiryOf(a: Acceptance): int {
    if a.request.message.Some? then a.request.message.value.expiresAt * MILLIS else 0
  }

  /** An accepted message has expired, or its key still stands and outlives it. */
  predicate Remembered(w: World, a: Acceptance) {
    a.request.message.Some? && a.at <= w.clock &&
    (ExpiryOf(a) <= w.clock || (KeyOf(a.request) in w.keys && ExpiryOf(a) <= w.keys[KeyOf(a.request)]))
  }

  /** Of two acceptances under one key the earlier message had expired when the later was accepted. */
  predicate Once(accepted: seq<Acceptance>) {
    forall i, j | 0 <= i < j < |accepted| && accepted[i].request.message.Some? && accepted[j].request.message.Some? &&
                  KeyOf(accepted[i].request) == KeyOf(accepted[j].request) ::
      ExpiryOf(accepted[i]) <= accepted[j].at
  }

  predicate Inv(o: Options, w: World) {
    && (forall id | id in w.pending :: PendingSound(o, w, w.pending[id]))
    && (forall a | a in w.accepted :: Remembered(w, a))
    && Once(w.accepted)
  }

  lemma StepKeeps(o: Options, w: World, e: Event)
    requires Inv(o, w)
    ensures Inv(o, Step(o, w, e))
  {
    var w' := Step(o, w, e);
    assert forall i | 0 <= i < |w.accepted| :: w.accepted[i] in w.accepted;
    if |w'.accepted| > |w.accepted| {
      var p := w.pending[e.id];
      assert PendingSound(o, w, p);
      forall a | a in w'.accepted ensures Remembered(w', a) {
        assert a in w.accepted || a == Acceptance(p.request, w.clock);
      }
    }
  }

  lemma {:induction false} RunKeeps(o: Options, w: World, events: seq<Event>)
    requires Inv(o, w)
    ensures Inv(o, Run(o, w, events))
    decreases events
  {
    if events != [] {
      StepKeeps(o, w, events[0]);
      RunKeeps(o, Step(o, w, events[0]), events[1..]);
    }
  }

  /** Two accepted messages share a wallet and a nonce only if the earlier had expired by then. */
  lemma NonceIsReusedOnlyAfterExpiry(o: Options, clock: int, events: seq<Event>, i: nat, j: nat)
    requires i < j < |Run(o, Boot(clock), events).accepted|
    ensures var accepted := Run(o, Boot(clock), events).accepted;
      var a, b := accepted[i].request, accepted[j].request;
      && a.message.Some? && b.message.Some?
      && (SameUpToCase(a.wallet, b.wallet) && a.message.value.nonce == b.message.value.nonce ==>
            a.message.value.expiresAt * 1000 <= accepted[j].at)
  {
    RunKeeps(o, Boot(clock), events);
    var accepted := Run(o, Boot(clock), events).accepted;
    LowerDecidesCase(accepted[i].request.wallet, accepted[j].request.wallet);
    assert accepted[i] in accepted && accepted[j] in accepted;
  }

  lemma {:induction false} AcceptedInTime(o: Options, w: World, events: seq<Event>)
    requires AllInTime(o, w, events) && forall a | a in w.accepted :: a.at < ExpiryOf(a)
    ensures forall a | a in Run(o, w, events).accepted :: a.at < ExpiryOf(a)
    decreases events
  {
    if events != [] {
      var w' := Step(o, w, events[0]);
      assert forall a | a in w'.accepted :: a in w.accepted || a == w'.accepted[|w.accepted|];
      AcceptedInTime(o, w', events[1..]);
    }
  }

  /** No signed message is accepted twice while every key is set before its message expires. */
  lemma NoMessageIsAcceptedTwice(o: Options, clock: int, events: seq<Event>, i: nat, j: nat)
    requires AllInTime(o, Boot(clock), events)
    requires i < j < |Run(o, Boot(clock), events).accepted|
    ensures var accepted := Run(o, Boot(clock), events).accepted;
      var a, b := accepted[i].request, accepted[j].request;
      !(SameUpToCase(a.wallet, b.wallet) && a.message == b.message)
  {
    NonceIsReusedOnlyAfterExpiry(o, clock, events, i, j);
    LowerDecidesCase(Run(o, Boot(clock), events).accepted[i].request.wallet,
                     Run(o, Boot(clock), events).accepted[j].request.wallet);
    AcceptedInTime(o, Boot(clock), events);
    var accepted := Run(o, Boot(clock), events).accepted;
    assert accepted[j] in accepted;
  }

  /**
   * Two requests carry one message and both have passed the checks: both are accepted exactly when the second
   * sets its key only after the first's has run out, which is never before the message itself has.
   */
  lemma AcceptedTwiceIffSetTooLate(o: Options, w: World, first: nat, second: nat, delay: nat)
    requires Inv(o, w) && first != second && first in w.pending && second in w.pending
    requires w.pending[first].request == w.pending[second].request
    requires w.pending[first].request.message.Some? && !Live(w.keys, KeyOf(w.pending[first].request), w.clock)
    ensures var w' := Step(o, Step(o, Step(o, w, Insert(first, true)), Tick(delay)), Insert(second, true));
      && (|w'.accepted| == |w.accepted| + 2 <==> delay >= Ttl(w.pending[first]))
      && (delay >= Ttl(w.pending[first]) ==> w'.clock >= w.pending[first].request.message.value.expiresAt * MILLIS)
  {
    var p := w.pending[first];
    assert PendingSound(o, w, p);
    var w1 := Step(o, w, Insert(first, true));
    assert w1.keys == w.keys[KeyOf(p.request) := w.clock + Ttl(p)] && w1.pending[second] == w.pending[second];
  }

  // ---------------------------------------------------------------------------
  // Binding
  // ---------------------------------------------------------------------------

  /** What lets a request through to the nonce: its fields, the clock's second, and nothing else. */
  predicate Entitled(o: Options, r: Request, now: int) {
    && r.wallet != "" && r.headers && r.message.Some? && r.signer.Some?
    && SameUpToCase(r.signer.value, r.wallet)
    && var m := r.message.value;
       && now < m.expiresAt <= now + 300
       && (o.provider == "" || SameUpToCase(m.provider, o.provider) || (m.provider == "" && !o.strict))
       && (r.id == "" || m.resource == r.id || (m.resource == "" && !o.strict))
  }

  /**
   * The checks let through exactly who signed, for the header's wallet, a message of this window, provider and
   * resource, or outside strict mode one that leaves the last two open.
   */
  lemma PassesIffBound(o: Options, r: Request, now: int)
    ensures Check(o, r, now).None? <==> Entitled(o, r, now)
  {
    if r.message.Some? && r.signer.Some? {
      LowerDecidesCase(r.signer.value, r.wallet);
      LowerDecidesCase(r.message.value.provider, o.provider);
      hide SameUpToCase, Lower;
      assert |Lower(o.provider)| == |o.provider| && |Lower(r.message.value.provider)| == |r.message.value.provider|;
      assert Lower(r.message.value.provider) == "" <==> r.message.value.provider == "";
    }
  }

  /** Which failure a rejection names: the first in the order of fields, window, signature, provider, resource. */
  lemma RejectionNamesTheFirstFailure(o: Options, r: Request, now: int)
    ensures var why := Check(o, r, now);
      var whole := r.wallet != "" && r.headers;
      && (why == Some(MissingHeaders) <==> !whole)
      && (why == Some(Malformed) <==> whole && r.message.None?)
      && (whole && r.message.Some? ==>
            var m := r.message.value;
            var timely := now < m.expiresAt <= now + 300;
            var signed := timely && r.signer.Some? && SameUpToCase(r.signer.value, r.wallet);
            var here := signed && (o.provider == "" || SameUpToCase(m.provider, o.provider)
                                   || (m.provider == "" && !o.strict));
            && (why == Some(Expired) <==> m.expiresAt <= now)
            && (why == Some(TooFarAhead) <==> m.expiresAt > now + 300)
            && (why == Some(BadSignature) <==> timely && !signed)
            && (why == Some(OtherProvider) <==> signed && !here && m.provider != "")
            && (why == Some(NoProvider) <==> signed && !here && m.provider == "")
            && (why == Some(OtherResource) <==> here && r.id != "" && m.resource != "" && m.resource != r.id)
            && (why == Some(NoResource) <==> here && r.id != "" && m.resource == "" && o.strict))
  {
    if r.message.Some? && r.signer.Some? {
      LowerDecidesCase(r.signer.value, r.wallet);
      LowerDecidesCase(r.message.value.provider, o.provider);
      hide SameUpToCase, Lower;
      assert |Lower(o.provider)| == |o.provider| && |Lower(r.message.value.provider)| == |r.message.value.provider|;
    }
  }

  /** A request that meets nobody else: it is accepted exactly when it is entitled and its nonce is not taken. */
  lemma LoneRequest(o: Options, w: World, id: nat, r: Request, elapsed: nat, up: bool)
    requires id !in w.pending
    ensures var w' := Step(o, Step(o, Step(o, w, Read(id, r)), Tick(elapsed)), Insert(id, up));
      var taken := r.message.Some? &&
        var key := (Lower(r.wallet), r.message.value.nonce); key in w.keys && w.clock + elapsed < w.keys[key];
      && w'.pending == w.pending && w'.clock == w.clock + elapsed
      && w'.accepted ==
         w.accepted + (if Entitled(o, r, w.clock / 1000) && up && !taken then [Acceptance(r, w'.clock)] else [])
      && w'.keys == if w'.accepted == w.accepted then w.keys
                    else w.keys[(Lower(r.wallet), r.message.value.nonce) :=
                                  w'.clock + (r.message.value.expiresAt - w.clock / 1000) * 1000]
  {
    PassesIffBound(o, r, w.clock / MILLIS);
    hide Check;
    var w1 := Step(o, w, Read(id, r));
    var w2 := Step(o, w1, Tick(elapsed));
    if id in w2.pending {
      assert Entitled(o, r, w.clock / MILLIS);
      assert w2.pending - {id} == w.pending;
    }
  }

  class Middleware {
    const options: Options
    var keys: map<Key, int>

    constructor (options: Options)
      ensures this.options == options && keys == map[]
    {
      this.options, keys := options, map[];
    }

    /**
     * One request: `clock` when the time is read, `later` when the key is set. `None` lets it through, and then
     * the key is taken until the message has expired; every rejection leaves the keys alone.
     */
    method Authenticate(r: Request, clock: int, later: int, up: bool) returns (rejection: Option<Rejection>)
      requires clock <= later
      modifies this
      ensures var now := clock / 1000;
        var taken := r.message.Some? &&
          var key := (Lower(r.wallet), r.message.value.nonce); key in old(keys) && later < old(keys)[key];
        && (rejection == None <==> Entitled(options, r, now) && up && !taken)
        && (rejection == None ==>
              keys == old(keys)[(Lower(r.wallet), r.message.value.nonce) :=
                                  later + (r.message.value.expiresAt - now) * 1000])
        && (rejection.Some? ==>
              && keys == old(keys)
              && (rejection.value == Internal <==> Entitled(options, r, now) && !up)
              && (rejection.value == Replayed <==> Entitled(options, r, now) && up && taken))
      // Whoever is not entitled is told the first check that failed.
      ensures Check(options, r, clock / 1000).Some? ==> rejection == Check(options, r, clock / 1000)
      // The key stands until the message has expired.
      ensures rejection == None ==>
                var key := (Lower(r.wallet), r.message.value.nonce);
                later < keys[key] && keys[key] >= r.message.value.expiresAt * 1000
    {
      PassesIffBound(options, r, clock / 1000);
      hide SameUpToCase, Entitled;
      if r.wallet == "" || !r.headers {
        return Some(MissingHeaders);
      }
      if r.message.None? {
        return Some(Malformed);
      }
      var m := r.message.value;
      var now := clock / MILLIS;
      if m.expiresAt <= now {
        return Some(Expired);
      }
      if m.expiresAt > now + MAX_FUTURE_WINDOW {
        return Some(TooFarAhead);
      }
      if r.signer.None? || Lower(r.signer.value) != Lower(r.wallet) {
        return Some(BadSignature);
      }
      if options.provider != "" {
        if m.provider != "" && Lower(m.provider) != Lower(options.provider) {
          return Some(OtherProvider);
        }
        if m.provider == "" && options.strict {
          return Some(NoProvider);
        }
      }
      if r.id != "" {
        if m.resource != "" && m.resource != r.id {
          return Some(OtherResource);
        }
        if m.resource == "" && options.strict {
          return Some(NoResource);
        }
      }
      if !up {
        return Some(Internal);
      }
      var key := (Lower(r.wallet), m.nonce);
      if key in keys && later < keys[key] {
        return Some(Replayed);
      }
      keys := keys[key := later + (m.expiresAt - now) * MILLIS];
      return None;
    }
  }
}
