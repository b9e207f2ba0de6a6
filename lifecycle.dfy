/**
 * `ServiceSmartLifecycle`: the adapter that lets the container's phased
 * lifecycle (start, stop, stop with a completion callback, destroy) drive one
 * Guava-style service.
 *
 * The service is a class whose operations have deliberately loose contracts:
 * the adapter's proofs rely only on those contracts, so they hold for every
 * service behaviour the contracts admit. Every call the adapter makes on the
 * service is recorded in the service's ghost `trace`, which is how call order
 * and "no further interaction" are stated.
 */
module Lifecycle {
  import opened Wrappers
  import opened Annotation

  /** The states of a service. */
  datatype State = New | Starting | Running | Stopping | Terminated | Failed {

    /** A state the service never leaves. */
    predicate IsTerminal() {
      this == Terminated || this == Failed
    }

    /** The enum constant's name, as Java's `toString` prints it. */
    function Name(): string {
      match this
      case New => "NEW"
      case Starting => "STARTING"
      case Running => "RUNNING"
      case Stopping => "STOPPING"
      case Terminated => "TERMINATED"
      case Failed => "FAILED"
    }
  }

  /** The states in which the adapter reports itself running. */
  const RunningStates: set<State> := {Starting, Running, Stopping}

  /** The states after which a stop callback is due. */
  const TerminalStates: set<State> := {Terminated, Failed}

  /** The unchecked exceptions that cross the adapter. */
  datatype Exception =
    | IllegalStateException(message: string)
    | NullPointerException(message: string)
    | RuntimeException(message: string)   // any other unchecked exception a service may raise

  /** How a call ended: it returned, or it threw the given exception. */
  datatype Outcome = Normal | Thrown(exception: Exception)

  /** A call made on the service; the waits record how they ended. */
  datatype Call =
    | StartAsync
    | StopAsync
    | AwaitRunning(result: Outcome)
    | AwaitTerminated(result: Outcome)
    | AddListener
    | ReadState(observed: State)

  const StartRejectionPrefix: string := "Can't start service in state "

  /** The exception `start()` throws for a service it cannot start. */
  function StartRejection(s: State): (e: Exception)
    ensures e.IllegalStateException?
    ensures |s.Name()| <= |e.message| && e.message[|e.message| - |s.Name()|..] == s.Name()
  {
    IllegalStateException(StartRejectionPrefix + s.Name())
  }

  /** The rejection names the offending state: different states give different messages. */
  lemma StartRejectionIdentifiesState(s: State, t: State)
    requires StartRejection(s) == StartRejection(t)
    ensures s == t
  {
    var m := StartRejection(s).message;
    assert s.Name() == m[|StartRejectionPrefix|..];
    assert t.Name() == m[|StartRejectionPrefix|..];
  }

  /**
   * What the blocking `stop()` reports after its wait ended with `waited` and
   * the service was then found in state `after`: an `IllegalStateException`
   * is swallowed exactly when the service has failed, anything else passes
   * through unchanged.
   */
  function StopOutcome(waited: Outcome, after: State): (r: Outcome)
    ensures r == Normal <==> waited == Normal || (waited.exception.IllegalStateException? && after == Failed)
    ensures r != Normal ==> r == waited
  {
    match waited
    case Normal => Normal
    case Thrown(e) => if e.IllegalStateException? && after == Failed then Normal else waited
  }

  /** A wait that ended with an `IllegalStateException`: the one case `stop()` inspects further. */
  predicate ThrewIllegalState(o: Outcome) {
    o.Thrown? && o.exception.IllegalStateException?
  }

  /**
   * The calls the blocking `stop()` makes: `stopAsync`, `awaitTerminated`,
   * and a read of the state only when that wait threw `IllegalStateException`.
   */
  function StopCalls(waited: Outcome, after: State): (calls: seq<Call>)
    ensures 2 <= |calls| && calls[..2] == [StopAsync, AwaitTerminated(waited)]
    ensures |calls| == 3 <==> ThrewIllegalState(waited)
    ensures |calls| == 3 ==> calls[2] == ReadState(after)
  {
    [StopAsync, AwaitTerminated(waited)] + (if ThrewIllegalState(waited) then [ReadState(after)] else [])
  }

  /**
   * The guard around a stop callback (`AsyncStopSupportListener`). The
   * callback is represented by `runs`, the number of times it has run.
   */
  class StopListener {
    var callbackExecuted: bool
    ghost var runs: nat

    /** The flag is the single source of truth: the callback ran once iff the flag is set. */
    ghost predicate Valid()
      reads this
    {
      runs == if callbackExecuted then 1 else 0
    }

    constructor ()
      ensures Valid() && !callbackExecuted
    {
      callbackExecuted := false;
      runs := 0;
    }

    /** Runs the callback unless it ran already (compare-and-set of the flag from false to true). */
    method ExecuteCallback()
      requires Valid()
      modifies this
      ensures Valid() && callbackExecuted && runs == 1
      ensures runs == old(runs) + (if old(callbackExecuted) then 0 else 1)
    {
      if !callbackExecuted {
        callbackExecuted := true;
        runs := runs + 1;
      }
    }

    /** Notification that the service reached TERMINATED. */
    method Terminated(from: State)
      requires Valid()
      modifies this
      ensures Valid() && callbackExecuted && runs == 1
      ensures runs == old(runs) + (if old(callbackExecuted) then 0 else 1)
    {
      ExecuteCallback();
    }

    /** Notification that the service reached FAILED. */
    method Failed(from: State, failure: Exception)
      requires Valid()
      modifies this
      ensures Valid() && callbackExecuted && runs == 1
      ensures runs == old(runs) + (if old(callbackExecuted) then 0 else 1)
    {
      ExecuteCallback();
    }
  }

  /**
   * A Guava-style service. The method bodies are one admissible behaviour;
   * the contracts admit any behaviour that keeps `Valid`, never leaves a
   * terminal state, never takes back a callback run (a listener's `runs`
   * never decreases), runs no listener while it stays short of a terminal
   * state, and records the call in `trace`.
   */
  class Service {
    var state: State
    var listeners: seq<StopListener>
    ghost var trace: seq<Call>

    /**
     * Every registered listener is a consistent guard, and in a terminal
     * state every registered listener has run. (That a terminal service
     * registers no new listener is `AddListener`'s contract.)
     */
    ghost predicate Valid()
      reads this, listeners
    {
      && (forall l :: l in listeners ==> l.Valid())
      && (state.IsTerminal() ==> forall l :: l in listeners ==> l.callbackExecuted)
    }

    constructor (initial: State)
      ensures Valid() && state == initial && listeners == [] && trace == []
    {
      state := initial;
      listeners := [];
      trace := [];
    }

    /** Moves to a terminal state and notifies every registered listener. */
    method MoveToTerminal(to: State, failure: Exception)
      requires Valid() && !state.IsTerminal() && to.IsTerminal()
      modifies this, listeners
      ensures Valid() && state == to && listeners == old(listeners) && trace == old(trace)
      ensures forall l :: l in listeners ==> l.callbackExecuted
      ensures forall l :: l in old(listeners) ==> old(l.runs) <= l.runs
    {
      var from := state;
      state := to;
      var i := 0;
      while i < |listeners|
        invariant 0 <= i <= |listeners|
        invariant state == to && listeners == old(listeners) && trace == old(trace)
        invariant forall l :: l in listeners ==> l.Valid()
        invariant forall j :: 0 <= j < i ==> listeners[j].callbackExecuted
        invariant forall l :: l in listeners ==> old(l.runs) <= l.runs
      {
        if to == Terminated {
          listeners[i].Terminated(from);
        } else {
          listeners[i].Failed(from, failure);
        }
        i := i + 1;
      }
    }

    /** Requests start-up; only a NEW service may be started. */
    method StartAsync()
      requires Valid() && state == New
      modifies this, listeners
      ensures Valid() && listeners == old(listeners)
      ensures trace == old(trace) + [Call.StartAsync]
      ensures forall l :: l in old(listeners) ==> old(l.runs) <= l.runs
      ensures !state.IsTerminal() ==> forall l :: l in old(listeners) ==> l.runs == old(l.runs)
    {
      trace := trace + [Call.StartAsync];
      state := Starting;
    }

    /** Requests shut-down; a NEW service terminates at once, a terminal one is left as it is. */
    method StopAsync()
      requires Valid()
      modifies this, listeners
      ensures Valid() && listeners == old(listeners)
      ensures old(state).IsTerminal() ==> state == old(state)
      ensures trace == old(trace) + [Call.StopAsync]
      ensures forall l :: l in old(listeners) ==> old(l.runs) <= l.runs
      ensures !state.IsTerminal() ==> forall l :: l in old(listeners) ==> l.runs == old(l.runs)
    {
      trace := trace + [Call.StopAsync];
      if state == New {
        MoveToTerminal(Terminated, RuntimeException(""));
      } else if state == Starting || state == Running {
        state := Stopping;
      }
    }

    /** Waits for RUNNING; throws if the service ends up anywhere else. */
    method AwaitRunning() returns (o: Outcome)
      requires Valid()
      modifies this, listeners
      ensures Valid() && listeners == old(listeners)
      ensures old(state).IsTerminal() ==> state == old(state)
      ensures trace == old(trace) + [Call.AwaitRunning(o)]
      ensures forall l :: l in old(listeners) ==> old(l.runs) <= l.runs
      ensures !state.IsTerminal() ==> forall l :: l in old(listeners) ==> l.runs == old(l.runs)
    {
      if state == Starting {
        state := Running;
      }
      o := if state == Running then Normal
           else Thrown(IllegalStateException("Expected the service to be RUNNING, but was " + state.Name()));
      trace := trace + [Call.AwaitRunning(o)];
    }

    /** Waits for TERMINATED; throws if the service ends up anywhere else. */
    method AwaitTerminated() returns (o: Outcome)
      requires Valid()
      modifies this, listeners
      ensures Valid() && listeners == old(listeners)
      ensures old(state).IsTerminal() ==> state == old(state)
      ensures trace == old(trace) + [Call.AwaitTerminated(o)]
      ensures forall l :: l in old(listeners) ==> old(l.runs) <= l.runs
      ensures !state.IsTerminal() ==> forall l :: l in old(listeners) ==> l.runs == old(l.runs)
    {
      if state == Stopping {
        MoveToTerminal(Terminated, RuntimeException(""));
      }
      o := if state == Terminated then Normal
           else Thrown(IllegalStateException("Expected the service to be TERMINATED, but was " + state.Name()));
      trace := trace + [Call.AwaitTerminated(o)];
    }

    /** Registers a listener; a service that is already terminal never calls it. */
    method AddListener(l: StopListener)
      requires Valid() && l.Valid()
      modifies this
      ensures Valid() && state == old(state)
      ensures listeners == if old(state).IsTerminal() then old(listeners) else old(listeners) + [l]
      ensures trace == old(trace) + [Call.AddListener]
    {
      trace := trace + [Call.AddListener];
      if !state.IsTerminal() {
        listeners := listeners + [l];
      }
    }

    /** Reports the current state; the read is recorded, nothing else changes. */
    method GetState() returns (s: State)
      requires Valid()
      modifies this
      ensures Valid() && s == state && state == old(state) && listeners == old(listeners)
      ensures trace == old(trace) + [ReadState(s)]
    {
      s := state;
      trace := trace + [ReadState(s)];
    }

    /**
     * The service's own thread finishing: it reaches TERMINATED, or FAILED
     * when `failed`, and notifies its listeners. The adapter never calls
     * this; it is how a service terminates after `stop(callback)` returned.
     */
    method Finish(failed: bool)
      requires Valid()
      modifies this, listeners
      ensures Valid() && state.IsTerminal() && listeners == old(listeners) && trace == old(trace)
      ensures old(state).IsTerminal() ==> state == old(state)
      ensures forall l :: l in listeners ==> l.callbackExecuted && l.runs == 1
      ensures forall l :: l in old(listeners) ==> old(l.runs) <= l.runs
    {
      if !state.IsTerminal() {
        MoveToTerminal(if failed then Failed else Terminated, RuntimeException("failure"));
      }
    }
  }

  /** The lifecycle adapter around one service. */
  class ServiceSmartLifecycle {
    const service: Service
    var autoStartup: bool
    var asyncStart: bool
    var stopOnDestroy: bool
    var phase: Int32

    /** Wraps `service` with the default configuration. */
    constructor (service: Service)
      ensures this.service == service
      ensures autoStartup && !asyncStart && !stopOnDestroy && phase == 0
    {
      this.service := service;
      autoStartup := true;
      asyncStart := false;
      stopOnDestroy := false;
      phase := 0;
    }

    /** The public constructor: rejects a null service, naming the parameter. */
    static method Create(service: Service?) returns (r: Result<ServiceSmartLifecycle, Exception>)
      ensures r.Failure? <==> service == null
      ensures r.Failure? ==> r.error == NullPointerException("service")
      ensures r.Success? ==> fresh(r.value) && r.value.service == service
      ensures r.Success? ==> r.value.autoStartup && !r.value.asyncStart && !r.value.stopOnDestroy && r.value.phase == 0
    {
      if service == null {
        return Failure(NullPointerException("service"));
      }
      var adapter := new ServiceSmartLifecycle(service);
      return Success(adapter);
    }

    function GetService(): Service {
      service
    }

    function IsAutoStartup(): bool
      reads this
    {
      autoStartup
    }

    function IsAsyncStart(): bool
      reads this
    {
      asyncStart
    }

    function IsStopOnDestroy(): bool
      reads this
    {
      stopOnDestroy
    }

    function GetPhase(): Int32
      reads this
    {
      phase
    }

    method SetAutoStartup(autoStartup: bool)
      modifies this`autoStartup
      ensures IsAutoStartup() == autoStartup
    {
      this.autoStartup := autoStartup;
    }

    method SetAsyncStart(asyncStart: bool)
      modifies this`asyncStart
      ensures IsAsyncStart() == asyncStart
    {
      this.asyncStart := asyncStart;
    }

    method SetStopOnDestroy(stopOnDestroy: bool)
      modifies this`stopOnDestroy
      ensures IsStopOnDestroy() == stopOnDestroy
    {
      this.stopOnDestroy := stopOnDestroy;
    }

    method SetPhase(phase: Int32)
      modifies this`phase
      ensures GetPhase() == phase
    {
      this.phase := phase;
    }

    /** Running means started and not yet terminal. */
    function IsRunning(): (r: bool)
      reads this, service
      ensures r <==> service.state != New && !service.state.IsTerminal()
    {
      service.state in RunningStates
    }

    /**
     * Reads the state, starts the service from NEW, accepts STARTING and
     * RUNNING as already started, and rejects every other state before any
     * further call. Unless `asyncStart`, then waits for RUNNING and reports
     * how the wait ended.
     */
    method Start() returns (r: Outcome)
      requires service.Valid()
      modifies service, service.listeners
      ensures service.Valid()
      ensures service.listeners == old(service.listeners)
      ensures !service.state.IsTerminal() ==> forall l :: l in old(service.listeners) ==> l.runs == old(l.runs)
      ensures forall l :: l in old(service.listeners) ==> old(l.runs) <= l.runs
      ensures old(service.state) in {Stopping, Terminated, Failed} ==>
        r == Thrown(StartRejection(old(service.state)))
        && service.trace == old(service.trace) + [ReadState(old(service.state))]
        && service.state == old(service.state)
      ensures old(service.state) in {New, Starting, Running} ==>
        service.trace ==
          old(service.trace)
          + [ReadState(old(service.state))]
          + (if old(service.state) == New then [Call.StartAsync] else [])
          + (if asyncStart then [] else [Call.AwaitRunning(r)])
      ensures old(service.state) in {New, Starting, Running} && asyncStart ==> r == Normal
      ensures old(service.state) != New && (asyncStart || old(service.state) in {Stopping, Terminated, Failed}) ==>
        && service.state == old(service.state) && service.listeners == old(service.listeners)
        && forall l :: l in old(service.listeners) ==> unchanged(l)
    {
      var state := service.GetState();
      match state {
        case New =>
          service.StartAsync();
        case Starting =>
        case Running =>
        case _ =>
          return Thrown(StartRejection(state));
      }
      if !asyncStart {
        r := service.AwaitRunning();
      } else {
        r := Normal;
      }
    }

    /**
     * The blocking stop: always requests the stop, then waits for
     * termination; only a wait that threw `IllegalStateException` makes it
     * read the state, and that exception is forgiven when the service is
     * then found FAILED. `waited` is how the wait ended.
     */
    method Stop() returns (r: Outcome, ghost waited: Outcome)
      requires service.Valid()
      modifies service, service.listeners
      ensures service.Valid()
      ensures service.listeners == old(service.listeners)
      ensures !service.state.IsTerminal() ==> forall l :: l in old(service.listeners) ==> l.runs == old(l.runs)
      ensures old(service.state).IsTerminal() ==> service.state == old(service.state)
      ensures forall l :: l in old(service.listeners) ==> old(l.runs) <= l.runs
      ensures service.trace == old(service.trace) + StopCalls(waited, service.state)
      ensures r == StopOutcome(waited, service.state)
    {
      service.StopAsync();
      var w := service.AwaitTerminated();
      waited, r := w, w;
      if ThrewIllegalState(w) {
        var after := service.GetState();
        if after == Failed {
          r := Normal;
        }
      }
    }

    /**
     * The non-blocking stop: registers a guard listener `l`, requests the
     * stop, reads the state and runs the guarded callback itself if the
     * service is already terminal. No admitted service behaviour lowers a
     * run count, so `l.runs` counts every run of the callback: it runs at
     * most once, it has run once when the service is terminal, and when it
     * has not run yet, `l` is registered, so the service's own termination
     * (see `Service.Valid`) runs it.
     */
    method StopWithCallback() returns (ghost l: StopListener)
      requires service.Valid()
      modifies service, service.listeners
      ensures service.Valid()
      ensures forall k :: k in old(service.listeners) ==> old(k.runs) <= k.runs
      ensures !service.state.IsTerminal() ==> forall k :: k in old(service.listeners) ==> k.runs == old(k.runs)
      ensures fresh(l) && l.Valid() && l.runs <= 1
      ensures l.runs == 1 <==> service.state.IsTerminal()
      ensures l.runs == 0 ==> l in service.listeners
      ensures service.listeners == old(service.listeners) || service.listeners == old(service.listeners) + [l]
      ensures service.trace == old(service.trace) + [Call.AddListener, Call.StopAsync, ReadState(service.state)]
    {
      var asyncStopSupport := new StopListener();
      l := asyncStopSupport;
      service.AddListener(asyncStopSupport);
      service.StopAsync();
      var state := service.GetState();
      if state in TerminalStates {
        asyncStopSupport.ExecuteCallback();
      }
    }

    /** Teardown: stops the service (blocking) only when `stopOnDestroy` is set. */
    method Destroy() returns (r: Outcome, ghost waited: Outcome)
      requires service.Valid()
      modifies service, service.listeners
      ensures service.Valid()
      ensures service.listeners == old(service.listeners)
      ensures !service.state.IsTerminal() ==> forall l :: l in old(service.listeners) ==> l.runs == old(l.runs)
      ensures old(service.state).IsTerminal() ==> service.state == old(service.state)
      ensures forall l :: l in old(service.listeners) ==> old(l.runs) <= l.runs
      ensures !stopOnDestroy ==> r == Normal && unchanged(service) && service.trace == old(service.trace)
      ensures !stopOnDestroy ==> forall l :: l in old(service.listeners) ==> unchanged(l)
      ensures stopOnDestroy ==>
        && service.trace == old(service.trace) + StopCalls(waited, service.state)
        && r == StopOutcome(waited, service.state)
    {
      if stopOnDestroy {
        r, waited := Stop();
      } else {
        r, waited := Normal, Normal;
      }
    }
  }

  /**
   * A stop with a callback on a service that terminates only later: the
   * callback has run exactly once once the service has finished, whichever
   * of the two paths ran it.
   */
  method StopThenServiceFinishes(adapter: ServiceSmartLifecycle, failed: bool) returns (ghost l: StopListener)
    requires adapter.service.Valid()
    modifies adapter.service, adapter.service.listeners
    ensures adapter.service.Valid() && adapter.service.state.IsTerminal()
    ensures forall k :: k in old(adapter.service.listeners) ==> old(k.runs) <= k.runs
    ensures l.Valid() && l.runs == 1
  {
    l := adapter.StopWithCallback();
    adapter.service.Finish(failed);
  }

  /**
   * The container's shutdown order, `stop(callback)` and then `destroy()`:
   * whichever of the two calls brought the service to a terminal state, the
   * callback has then run once, and it has not run while the service is not
   * terminal.
   */
  method StopThenDestroy(adapter: ServiceSmartLifecycle) returns (ghost l: StopListener)
    requires adapter.service.Valid()
    modifies adapter.service, adapter.service.listeners
    ensures adapter.service.Valid()
    ensures l.Valid() && (l.runs == 1 <==> adapter.service.state.IsTerminal())
  {
    l := adapter.StopWithCallback();
    var r, waited := adapter.Destroy();
  }
}
