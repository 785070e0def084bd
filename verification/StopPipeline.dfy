/**
The stop pipeline: durable stop markers, a bounded queue of signals, a recovery pass
that re-queues every marker, a handler that archives the sandbox and then deletes its
session and its marker, and the generator's closing of phantom sessions. Every Redis
command, every call to Daytona and every channel operation is one step.
*/
module StopPipeline {
  import opened Wrappers

  type Id = string

  const STOP_CHANNEL_CAPACITY := 100

  /** classifySandbox's answers. A sandbox moves towards `Gone` only, unless a user restarts it. */
  datatype Disposition = Active | Archived | Gone

  /** A failed lookup counts as active. */
  function Classify(truth: Disposition, up: bool): Disposition {
    if up then truth else Active
  }

  /** Where the stop handler is with the signal it took. */
  datatype Handler =
    | Waiting
    | Looking(id: Id)
    | Archiving(id: Id)
    | LookingAgain(id: Id)
    | DroppingSession(id: Id)
    | DroppingMarker(id: Id)

  /** Where the generator is with a phantom it confirmed. */
  datatype Closer = Resting | ClosingSession(id: Id) | ClosingMarker(id: Id)

  /**
   * `archived` are the sandboxes whose archive call has succeeded; `todo` is what the recovery pass read and
   * has not sent; `sending` is the signal of a stop order whose marker was just set.
   */
  datatype World = World(truth: map<Id, Disposition>, archived: set<Id>, sessions: set<Id>, markers: set<Id>,
                         queue: seq<Id>, handler: Handler, todo: seq<Id>, sending: Option<Id>, closer: Closer)

  datatype Event =
    | SetMarker(id: Id, ok: bool)
    | Send
    | Page(keys: seq<Id>)
    | Requeue
    | Receive
    | Look(up: bool)
    | Archive(ok: bool)
    | DropSession(ok: bool)
    | DropMarker(ok: bool)
    | Confirm(id: Id, up: bool)
    | CloseSession(ok: bool)
    | CloseMarker(ok: bool)
    | Outside(id: Id, to: Disposition)
    | Crash
    | UserStart(id: Id)
    | OpenSession(id: Id)

  function TruthOf(w: World, id: Id): Disposition {
    if id in w.truth then w.truth[id] else Active
  }

  /** Nothing is left to protect: the sandbox is archived or gone, or its archive call succeeded. */
  predicate Terminal(w: World, id: Id) {
    TruthOf(w, id) != Active || id in w.archived
  }

  function Step(w: World, e: Event): World {
    match e
    case SetMarker(id, ok) =>
      if !ok || w.sending.Some? || id in w.markers then w else w.(markers := w.markers + {id}, sending := Some(id))
    case Send =>
      if w.sending.None? then w
      else if |w.queue| < STOP_CHANNEL_CAPACITY then w.(queue := w.queue + [w.sending.value], sending := None)
      else w.(sending := None)
    case Page(keys) => if w.todo == [] then w.(todo := keys) else w
    case Requeue =>
      if w.todo == [] || |w.queue| >= STOP_CHANNEL_CAPACITY then w
      else w.(queue := w.queue + [w.todo[0]], todo := w.todo[1..])
    case Receive =>
      if w.handler.Waiting? && w.queue != [] then w.(handler := Looking(w.queue[0]), queue := w.queue[1..]) else w
    case Look(up) =>
      (match w.handler
       case Looking(id) =>
         w.(handler := if Classify(TruthOf(w, id), up) == Active then Archiving(id) else DroppingSession(id))
       case LookingAgain(id) =>
         w.(handler := if Classify(TruthOf(w, id), up) == Active then Waiting else DroppingSession(id))
       case _ => w)
    case Archive(ok) =>
      if !w.handler.Archiving? then w
      else if ok then w.(archived := w.archived + {w.handler.id}, handler := DroppingSession(w.handler.id))
      else w.(handler := LookingAgain(w.handler.id))
    case DropSession(ok) =>
      if !w.handler.DroppingSession? then w
      else w.(sessions := w.sessions - (if ok then {w.handler.id} else {}), handler := DroppingMarker(w.handler.id))
    case DropMarker(ok) =>
      if !w.handler.DroppingMarker? then w
      else w.(markers := w.markers - (if ok then {w.handler.id} else {}), handler := Waiting)
    case Confirm(id, up) =>
      if w.closer.Resting? && Classify(TruthOf(w, id), up) == Gone then w.(closer := ClosingSession(id)) else w
    case CloseSession(ok) =>
      if !w.closer.ClosingSession? then w
      else if ok then w.(sessions := w.sessions - {w.closer.id}, closer := ClosingMarker(w.closer.id))
      else w.(closer := Resting)
    case CloseMarker(ok) =>
      if !w.closer.ClosingMarker? then w
      else w.(markers := w.markers - (if ok then {w.closer.id} else {}), closer := Resting)
    case Outside(id, to) =>
      if to == Gone || (to == Archived && TruthOf(w, id) == Active) then w.(truth := w.truth[id := to]) else w
    case Crash => w.(queue := [], handler := Waiting, todo := [], sending := None, closer := Resting)
    case UserStart(id) => w.(truth := w.truth[id := Active], archived := w.archived - {id})
    case OpenSession(id) => w.(sessions := w.sessions + {id})
  }

  function Run(w: World, events: seq<Event>): World
    decreases events
  {
    if events == [] then w else Run(Step(w, events[0]), events[1..])
  }

  // ---------------------------------------------------------------------------
  // Safety
  // ---------------------------------------------------------------------------

  /** The handler or the generator has still to delete the sandbox's session, or its marker. */
  predicate BeingDropped(w: World, id: Id) {
    DropsSession(w, id) || w.handler == DroppingMarker(id) || w.closer == ClosingMarker(id)
  }

  predicate DropsSession(w: World, id: Id) {
    w.handler == DroppingSession(id) || w.closer == ClosingSession(id)
  }

  /** A user does not start the sandbox while its state is being deleted. */
  predicate StartsInTime(w: World, events: seq<Event>, id: Id)
    decreases events
  {
    events == [] ||
    ((events[0] == UserStart(id) ==> !BeingDropped(w, id)) && StartsInTime(Step(w, events[0]), events[1..], id))
  }

  /** Whoever is about to delete the sandbox's state is dealing with a terminal one. */
  predicate Inv(w: World, id: Id) {
    BeingDropped(w, id) ==> Terminal(w, id)
  }

  lemma StepKeeps(w: World, e: Event, id: Id)
    requires Inv(w, id) && (e == UserStart(id) ==> !BeingDropped(w, id))
    ensures Inv(Step(w, e), id)
    ensures Terminal(w, id) && e != UserStart(id) ==> Terminal(Step(w, e), id)
    ensures !Terminal(w, id) && id in w.sessions ==> id in Step(w, e).sessions
    ensures !Terminal(w, id) && id in w.markers ==> id in Step(w, e).markers
  {
    if e.Look? && w.handler.Looking? {
      assert Step(w, e).truth == w.truth;
    }
  }

  /** The sandbox is active and was not archived, at the start of the run and after each of its steps. */
  predicate ActiveThroughout(w: World, events: seq<Event>, id: Id)
    decreases events
  {
    !Terminal(w, id) && (events == [] || ActiveThroughout(Step(w, events[0]), events[1..], id))
  }

  /**
   * In every run of stop orders, duplicate signals, recovery passes, failing calls, crashes, phantom closings and
   * users' starts, which only for this sandbox have to come in time, it keeps its session and its marker for as long
   * as it is active and not archived.
   */
  lemma {:induction false} ActiveSandboxesKeepTheirState(w: World, events: seq<Event>, id: Id)
    requires Inv(w, id) && StartsInTime(w, events, id)
    ensures Inv(Run(w, events), id)
    ensures ActiveThroughout(w, events, id) && id in w.sessions ==> id in Run(w, events).sessions
    ensures ActiveThroughout(w, events, id) && id in w.markers ==> id in Run(w, events).markers
    decreases events
  {
    if events != [] {
      StepKeeps(w, events[0], id);
      ActiveSandboxesKeepTheirState(Step(w, events[0]), events[1..], id);
    }
  }

  /** Unless it is started again itself, a sandbox that is active in the end was so all along. */
  lemma {:induction false} ActiveInTheEnd(w: World, events: seq<Event>, id: Id)
    requires Inv(w, id) && StartsInTime(w, events, id) && UserStart(id) !in events
    ensures !Terminal(Run(w, events), id) <==> ActiveThroughout(w, events, id)
    decreases events
  {
    if events != [] {
      StepKeeps(w, events[0], id);
      ActiveInTheEnd(Step(w, events[0]), events[1..], id);
      if Terminal(w, id) {
        StaysTerminal(Step(w, events[0]), events[1..], id);
      }
    }
  }

  lemma {:induction false} StaysTerminal(w: World, events: seq<Event>, id: Id)
    requires Inv(w, id) && StartsInTime(w, events, id) && UserStart(id) !in events && Terminal(w, id)
    ensures Terminal(Run(w, events), id)
    decreases events
  {
    if events != [] {
      StepKeeps(w, events[0], id);
      StaysTerminal(Step(w, events[0]), events[1..], id);
    }
  }

  /**
   * Exactly when a start comes too late: the next step can take the session that the start's hook opened if and only
   * if the session was about to be deleted, and a standing marker if and only if that was.
   */
  lemma StartIsLostIffBeingDropped(w: World, id: Id)
    ensures var started := Step(Step(w, UserStart(id)), OpenSession(id));
      && !Terminal(started, id) && id in started.sessions
      && ((exists e :: id !in Step(started, e).sessions) <==> DropsSession(w, id))
      && ((exists e :: id in w.markers && id !in Step(started, e).markers) <==>
            id in w.markers && (w.handler == DroppingMarker(id) || w.closer == ClosingMarker(id)))
  {
    var started := Step(Step(w, UserStart(id)), OpenSession(id));
    assert id in started.sessions && started.markers == w.markers;
    if w.handler == DroppingSession(id) {
      assert id !in Step(started, DropSession(true)).sessions;
    } else if w.closer == ClosingSession(id) {
      assert id !in Step(started, CloseSession(true)).sessions;
    }
    if w.handler == DroppingMarker(id) {
      assert id !in Step(started, DropMarker(true)).markers;
    } else if w.closer == ClosingMarker(id) {
      assert id !in Step(started, CloseMarker(true)).markers;
    }
  }

  // ---------------------------------------------------------------------------
  // One signal for a marker
  // ---------------------------------------------------------------------------

  function Signals(queue: seq<Id>, id: Id): nat {
    if queue == [] then 0 else (if queue[0] == id then 1 else 0) + Signals(queue[1..], id)
  }

  lemma {:induction false} SignalsAppend(queue: seq<Id>, last: Id, id: Id)
    ensures Signals(queue + [last], id) == Signals(queue, id) + if last == id then 1 else 0
  {
    if queue == [] {
      assert queue + [last] == [last] && [last][1..] == [];
    } else {
      assert (queue + [last])[1..] == queue[1..] + [last];
      SignalsAppend(queue[1..], last, id);
    }
  }

  predicate MarkerStands(w: World, events: seq<Event>, id: Id)
    decreases events
  {
    id in w.markers && (events == [] || MarkerStands(Step(w, events[0]), events[1..], id))
  }

  /**
   * While a marker stands, only the recovery pass queues its sandbox again: however many stop orders come in,
   * the signals queued or on their way for it do not grow in number.
   */
  lemma {:induction false} StopOrdersCollapse(w: World, events: seq<Event>, id: Id)
    requires MarkerStands(w, events, id) && Requeue !in events
    ensures Outstanding(Run(w, events), id) <= Outstanding(w, id)
    decreases events
  {
    if events != [] {
      OutstandingDoesNotGrow(w, events[0], id);
      StopOrdersCollapse(Step(w, events[0]), events[1..], id);
    }
  }

  /** The signals for a sandbox, in the channel or about to be sent. */
  function Outstanding(w: World, id: Id): nat {
    Signals(w.queue, id) + if w.sending == Some(id) then 1 else 0
  }

  lemma OutstandingDoesNotGrow(w: World, e: Event, id: Id)
    requires id in w.markers && e != Requeue
    ensures Outstanding(Step(w, e), id) <= Outstanding(w, id)
  {
    if e.Send? && w.sending.Some? {
      SignalsAppend(w.queue, w.sending.value, id);
    }
  }

  // ---------------------------------------------------------------------------
  // Draining
  // ---------------------------------------------------------------------------

  /** Every marker is on its way to a handler that will delete it. */
  predicate Covered(w: World) {
    w.sending.None? && forall id | id in w.markers :: OnItsWay(w, id)
  }

  predicate OnItsWay(w: World, id: Id) {
    id in w.todo || id in w.queue || (!w.handler.Waiting? && !w.handler.LookingAgain? && w.handler.id == id)
  }

  /** The steps of recovery and handler while Daytona and Redis answer. */
  predicate Work(w: World, e: Event) {
    match e
    case Requeue => w.todo != [] && |w.queue| < STOP_CHANNEL_CAPACITY
    case Receive => w.handler.Waiting? && w.queue != []
    case Look(up) => up && (w.handler.Looking? || w.handler.LookingAgain?)
    case Archive(ok) => ok && w.handler.Archiving?
    case DropSession(ok) => ok && w.handler.DroppingSession?
    case DropMarker(ok) => ok && w.handler.DroppingMarker?
    case _ => false
  }

  /** What else may happen meanwhile: sandboxes vanish, phantoms are closed. */
  predicate Background(e: Event) {
    e.Outside? || e.Confirm? || e.CloseSession? || e.CloseMarker?
  }

  predicate Healthy(w: World, events: seq<Event>)
    decreases events
  {
    events == [] || ((Work(w, events[0]) || Background(events[0])) && Healthy(Step(w, events[0]), events[1..]))
  }

  function WorkSteps(w: World, events: seq<Event>): nat
    decreases events
  {
    if events == [] then 0 else (if Work(w, events[0]) then 1 else 0) + WorkSteps(Step(w, events[0]), events[1..])
  }

  function Rank(h: Handler): nat {
    match h
    case Waiting => 0
    case DroppingMarker(_) => 1
    case DroppingSession(_) => 2
    case Archiving(_) => 3
    case LookingAgain(_) => 3
    case Looking(_) => 4
  }

  /** At most this many steps of work are left. */
  function Measure(w: World): nat {
    6 * |w.todo| + 5 * |w.queue| + Rank(w.handler)
  }

  lemma WorkProgresses(w: World, e: Event)
    requires Covered(w) && (Work(w, e) || Background(e))
    ensures Covered(Step(w, e)) && Step(w, e).markers <= w.markers
    ensures Measure(Step(w, e)) <= Measure(w) - if Work(w, e) then 1 else 0
  {
    var w' := Step(w, e);
    forall id | id in w'.markers ensures OnItsWay(w', id) {
      assert OnItsWay(w, id);
      if e.Requeue? && id in w.todo {
        assert id == w.todo[0] || id in w.todo[1..];
      }
      if e.Receive? && id in w.queue {
        assert id == w.queue[0] || id in w.queue[1..];
      }
    }
  }

  /** While anything is left, the next step of the work can be taken. */
  function NextWork(w: World): Event {
    match w.handler
    case Waiting => if w.queue != [] then Receive else Requeue
    case Looking(_) => Look(true)
    case LookingAgain(_) => Look(true)
    case Archiving(_) => Archive(true)
    case DroppingSession(_) => DropSession(true)
    case DroppingMarker(_) => DropMarker(true)
  }

  lemma WorkIsNeverStuck(w: World)
    ensures Measure(w) > 0 <==> Work(w, NextWork(w))
    ensures Measure(w) == 0 <==> forall e :: !Work(w, e)
  {
    if Measure(w) == 0 {
      forall e ensures !Work(w, e) {
      }
    }
  }

  lemma {:induction false} HealthyRun(w: World, events: seq<Event>)
    requires Covered(w) && Healthy(w, events)
    ensures Covered(Run(w, events)) && Run(w, events).markers <= w.markers
    ensures Measure(Run(w, events)) + WorkSteps(w, events) <= Measure(w)
    decreases events
  {
    if events != [] {
      WorkProgresses(w, events[0]);
      HealthyRun(Step(w, events[0]), events[1..]);
    }
  }

  /**
   * After a recovery pass has read every marker, and while calls succeed and no stop order comes in, every
   * schedule does at most `Measure` steps of work, and when none is left every marker is gone.
   */
  lemma RecoveryDrains(w: World, keys: seq<Id>, events: seq<Event>)
    requires w.todo == [] && w.sending.None?
    requires forall id | id in w.markers :: id in keys
    requires Healthy(Step(w, Page(keys)), events)
    ensures var read := Step(w, Page(keys));
      && WorkSteps(read, events) <= Measure(read)
      && ((forall e :: !Work(Run(read, events), e)) ==> Run(read, events).markers == {})
  {
    var read := Step(w, Page(keys));
    HealthyRun(read, events);
    WorkIsNeverStuck(Run(read, events));
  }

  /** The work, done to the end. */
  function Finish(w: World): (events: seq<Event>)
    requires Covered(w)
    ensures Healthy(w, events) && Measure(Run(w, events)) == 0
    decreases Measure(w)
  {
    if Measure(w) == 0 then []
    else
      WorkIsNeverStuck(w);
      WorkProgresses(w, NextWork(w));
      var rest := Finish(Step(w, NextWork(w)));
      assert ([NextWork(w)] + rest)[1..] == rest;
      [NextWork(w)] + rest
  }

  /** Such a schedule exists from every state, and the sandboxes whose markers it removes are terminal by then. */
  lemma EveryMarkerCanBeDrained(w: World, keys: seq<Id>)
    requires (forall id | id in w.markers :: Inv(w, id)) && w.todo == [] && w.sending.None?
    requires forall id | id in w.markers :: id in keys
    ensures var read := Step(w, Page(keys));
      Covered(read) &&
      var end := Run(read, Finish(read));
      end.markers == {} && forall id | id in w.markers :: Terminal(end, id)
  {
    var read := Step(w, Page(keys));
    assert Covered(read);
    var events := Finish(read);
    RecoveryDrains(w, keys, events);
    WorkIsNeverStuck(Run(read, events));
    HealthyHasNoStart(read, events);
    forall id | id in w.markers ensures Terminal(Run(read, events), id) {
      ActiveSandboxesKeepTheirState(read, events, id);
      ActiveInTheEnd(read, events, id);
    }
  }

  lemma {:induction false} HealthyHasNoStart(w: World, events: seq<Event>)
    requires Healthy(w, events)
    ensures forall id :: StartsInTime(w, events, id) && UserStart(id) !in events
    decreases events
  {
    if events != [] {
      HealthyHasNoStart(Step(w, events[0]), events[1..]);
      assert forall e | e in events :: e == events[0] || e in events[1..];
    }
  }

  // ---------------------------------------------------------------------------
  // The program's own steps
  // ---------------------------------------------------------------------------

  /**
   * One signal handled from start to end: the sandbox counts as finished by a look, the archive, or the second look.
   */
  function SignalEvents(first: bool, archive: bool, second: bool, session: bool, marker: bool,
                        truth: Disposition): seq<Event> {
    var drops := [DropSession(session), DropMarker(marker)];
    var fourth := if Classify(truth, second) != Active then drops else [];
    var third := if archive then drops else [Look(second)] + fourth;
    var rest := if Classify(truth, first) != Active then drops else [Archive(archive)] + third;
    [Receive] + ([Look(first)] + rest)
  }

  lemma RunCons(w: World, e: Event, rest: seq<Event>)
    ensures Run(w, [e] + rest) == Run(Step(w, e), rest)
  {
    hide Step;
    assert ([e] + rest)[1..] == rest;
  }

  lemma RunDrops(w: World, session: bool, marker: bool)
    requires w.handler.DroppingSession?
    ensures var id := w.handler.id;
      Run(w, [DropSession(session), DropMarker(marker)]) ==
      w.(sessions := w.sessions - (if session then {id} else {}), markers := w.markers - (if marker then {id} else {}),
         handler := Waiting)
  {
    RunCons(w, DropSession(session), [DropMarker(marker)]);
    RunCons(Step(w, DropSession(session)), DropMarker(marker), []);
  }

  lemma RunNothing(w: World)
    ensures Run(w, []) == w
  {
  }

  /** The handler's three steps before it drops anything. */
  lemma TakeSignal(w: World)
    requires w.handler.Waiting? && w.queue != []
    ensures Step(w, Receive) == w.(handler := Looking(w.queue[0]), queue := w.queue[1..])
  {
  }

  lemma TakeLook(w: World, up: bool)
    requires w.handler.Looking? || w.handler.LookingAgain?
    ensures Step(w, Look(up)) == w.(handler :=
              if Classify(TruthOf(w, w.handler.id), up) != Active then DroppingSession(w.handler.id)
              else if w.handler.Looking? then Archiving(w.handler.id) else Waiting)
  {
  }

  lemma TryArchive(w: World, ok: bool)
    requires w.handler.Archiving?
    ensures Step(w, Archive(ok)) ==
            if ok then w.(archived := w.archived + {w.handler.id}, handler := DroppingSession(w.handler.id))
            else w.(handler := LookingAgain(w.handler.id))
  {
  }

  /** In truth the sandbox is archived or gone. */
  predicate Ended(w: World, id: Id) {
    id in w.truth && (w.truth[id] == Archived || w.truth[id] == Gone)
  }

  /**
   * The outcome of handling one signal: session and marker go, but for failing deletions, exactly when the sandbox
   * has ended and one of the looks answers, or when the archive call succeeds; and that call is made exactly when
   * the first look does not answer or finds the sandbox active.
   */
  lemma SignalRun(w: World, first: bool, archive: bool, second: bool, session: bool, marker: bool)
    requires w.handler.Waiting? && w.queue != []
    ensures var id := w.queue[0];
      var events := SignalEvents(first, archive, second, session, marker, TruthOf(w, id));
      var w' := Run(w, events);
      var over := (Ended(w, id) && (first || second)) || (archive && !(Ended(w, id) && first));
      && (Archive(archive) in events <==> !(Ended(w, id) && first))
      && w'.archived == w.archived + (if archive && !(Ended(w, id) && first) then {id} else {})
      && w'.truth == w.truth && w'.queue == w.queue[1..] && w'.handler == Waiting
      && w'.sessions == w.sessions - (if over && session then {id} else {})
      && w'.markers == w.markers - (if over && marker then {id} else {})
  {
    hide Run, Step;
    var truth := TruthOf(w, w.queue[0]);
    var drops := [DropSession(session), DropMarker(marker)];
    var fourth := if Classify(truth, second) != Active then drops else [];
    var third := if archive then drops else [Look(second)] + fourth;
    var rest := if Classify(truth, first) != Active then drops else [Archive(archive)] + third;
    RunCons(w, Receive, [Look(first)] + rest);
    TakeSignal(w);
    var w1 := Step(w, Receive);
    RunCons(w1, Look(first), rest);
    TakeLook(w1, first);
    var w2 := Step(w1, Look(first));
    if Classify(truth, first) != Active {
      RunDrops(w2, session, marker);
    } else {
      RunCons(w2, Archive(archive), third);
      TryArchive(w2, archive);
      var w3 := Step(w2, Archive(archive));
      if archive {
        RunDrops(w3, session, marker);
      } else {
        RunCons(w3, Look(second), fourth);
        TakeLook(w3, second);
        var w4 := Step(w3, Look(second));
        if Classify(truth, second) != Active {
          RunDrops(w4, session, marker);
        } else {
          RunNothing(w4);
        }
      }
    }
  }

  /** The generator's lookup: it starts closing exactly when the lookup answers that the sandbox is gone. */
  lemma ClosingStartsIffGone(w: World, id: Id, up: bool)
    requires w.closer.Resting?
    ensures Step(w, Confirm(id, up)) ==
            w.(closer := if up && id in w.truth && w.truth[id] == Gone then ClosingSession(id) else Resting)
  {
  }

  /** A whole closing: the marker goes only after the session, and neither unless the sandbox is gone. */
  lemma ClosingRun(w: World, id: Id, up: bool, session: bool, marker: bool)
    requires w.closer.Resting?
    ensures var w' := Run(w, [Confirm(id, up), CloseSession(session), CloseMarker(marker)]);
      var closes := up && id in w.truth && w.truth[id] == Gone && session;
      w' == w.(sessions := w.sessions - (if closes then {id} else {}),
               markers := w.markers - (if closes && marker then {id} else {}))
  {
    RunCons(w, Confirm(id, up), [CloseSession(session), CloseMarker(marker)]);
    var w1 := Step(w, Confirm(id, up));
    RunCons(w1, CloseSession(session), [CloseMarker(marker)]);
    RunCons(Step(w1, CloseSession(session)), CloseMarker(marker), []);
    assert w.sessions - {} == w.sessions && w.markers - {} == w.markers;
  }

  /** A sandbox deleted straight through Daytona loses session and marker once the generator has looked. */
  lemma VanishedSandboxIsClosed(w: World, id: Id)
    requires w.closer.Resting?
    ensures var w' := Run(Step(w, Outside(id, Gone)), [Confirm(id, true), CloseSession(true), CloseMarker(true)]);
      id !in w'.sessions && id !in w'.markers && w'.sessions == w.sessions - {id} && w'.markers == w.markers - {id}
  {
    ClosingRun(Step(w, Outside(id, Gone)), id, true, true, true);
  }

  /** A stop order as two steps: its marker, and with a new one its signal. */
  lemma StopOrderRun(w: World, id: Id, up: bool)
    requires w.sending.None?
    ensures Run(w, [SetMarker(id, up), Send]) ==
            w.(markers := w.markers + (if up then {id} else {}),
               queue := w.queue + if up && id !in w.markers && |w.queue| < 100 then [id] else [])
  {
    RunCons(w, SetMarker(id, up), [Send]);
    RunCons(Step(w, SetMarker(id, up)), Send, []);
    assert id in w.markers ==> w.markers + {id} == w.markers;
    assert w.markers + {} == w.markers && w.queue + [] == w.queue;
  }

  /** A recovery pass over some keys, as far as the channel has room. */
  lemma {:induction false} RecoveryRun(w: World, n: nat)
    requires n <= |w.todo| && |w.queue| + n <= 100
    ensures Run(w, seq(n, _ => Requeue)) == w.(queue := w.queue + w.todo[..n], todo := w.todo[n..])
    decreases n
  {
    if n == 0 {
      assert w.queue + w.todo[..0] == w.queue && w.todo[0..] == w.todo;
    } else {
      assert seq(n, _ => Requeue) == [Requeue] + seq(n - 1, _ => Requeue);
      RunCons(w, Requeue, seq(n - 1, _ => Requeue));
      var w1 := Step(w, Requeue);
      RecoveryRun(w1, n - 1);
      assert w.queue + w.todo[..n] == w1.queue + w1.todo[..n - 1] && w.todo[n..] == w1.todo[n - 1..];
    }
  }

  /**
   * A stop order outlives a crash at any point: every marker that stood still stands, and a recovery pass that reads
   * them all brings each of the sandboxes to its end.
   */
  lemma CrashLosesNoStopOrder(w: World, keys: seq<Id>)
    requires forall id | id in w.markers :: Inv(w, id) && id in keys
    ensures var crashed := Step(w, Crash);
      var read := Step(crashed, Page(keys));
      && crashed.markers == w.markers && crashed.sessions == w.sessions
      && Covered(read)
      && var end := Run(read, Finish(read));
         end.markers == {} && forall id | id in w.markers :: Terminal(end, id)
  {
    var crashed := Step(w, Crash);
    assert forall id | id in crashed.markers :: Inv(crashed, id);
    EveryMarkerCanBeDrained(crashed, keys);
  }

  class Pipeline {
    var sessions: set<Id>
    var markers: set<Id>
    var queue: seq<Id>

    constructor ()
      ensures sessions == {} && markers == {} && queue == []
    {
      sessions, markers, queue := {}, {}, [];
    }

    /** persistStop: the marker first, and a signal only with a new marker and only while the channel has room. */
    method PersistStop(id: Id, redisUp: bool) returns (ok: bool)
      modifies this`markers, this`queue
      ensures ok == redisUp
      ensures markers == old(markers) + if ok then {id} else {}
      ensures var sends := ok && id !in old(markers) && |old(queue)| < STOP_CHANNEL_CAPACITY;
        queue == old(queue) + if sends then [id] else []
    {
      if !redisUp {
        return false;
      }
      if id in markers {
        return true;
      }
      markers := markers + {id};
      if |queue| < STOP_CHANNEL_CAPACITY {
        queue := queue + [id];
      }
      return true;
    }

    /** recoverPendingStops, up to the first key it would block on. */
    method RecoverPendingStops(keys: seq<Id>) returns (blocked: seq<Id>)
      requires |queue| <= STOP_CHANNEL_CAPACITY
      modifies this`queue
      ensures queue + blocked == old(queue) + keys
      ensures |queue| <= STOP_CHANNEL_CAPACITY && (blocked != [] ==> |queue| == STOP_CHANNEL_CAPACITY)
    {
      var i := 0;
      while i < |keys| && |queue| < STOP_CHANNEL_CAPACITY
        invariant i <= |keys| && |queue| <= STOP_CHANNEL_CAPACITY
        invariant queue == old(queue) + keys[..i]
      {
        queue := queue + [keys[i]];
        i := i + 1;
      }
      blocked := keys[i..];
    }

    /**
     * One turn of runStopHandler: session and marker go, but for failing deletions, when a look answers that the
     * sandbox has ended or the archive call succeeds. `archives` says whether that call is made.
     */
    method HandleSignal(ghost w: World, truth: Disposition, first: bool, archive: bool, second: bool, session: bool,
                        marker: bool) returns (archives: bool)
      requires queue != [] && TruthOf(w, queue[0]) == truth
      requires (w.sessions, w.markers, w.queue, w.handler) == (sessions, markers, queue, Waiting)
      modifies this
      ensures archives <==> !first || truth == Active
      ensures var id := old(queue)[0];
        var over := (first && truth != Active) || archive || (second && truth != Active);
        && queue == old(queue)[1..]
        && sessions == old(sessions) - (if over && session then {id} else {})
        && markers == old(markers) - (if over && marker then {id} else {})
      // It is a run of the steps above.
      ensures var w' := Run(w, SignalEvents(first, archive, second, session, marker, truth));
        (w'.sessions, w'.markers, w'.queue, w'.handler) == (sessions, markers, queue, Waiting)
    {
      archives := false;
      hide Run, SignalEvents;
      SignalRun(w, first, archive, second, session, marker);
      var id := queue[0];
      queue := queue[1..];
      if Classify(truth, first) == Active {
        archives := true;
        if !archive {
          if Classify(truth, second) == Active {
            assert sessions == old(sessions) - {} && markers == old(markers) - {};
            return;
          }
        }
      }
      if session {
        sessions := sessions - {id};
      }
      if marker {
        markers := markers - {id};
      }
      assert sessions == old(sessions) - if session then {id} else {};
      assert markers == old(markers) - if marker then {id} else {};
    }
  }
}
