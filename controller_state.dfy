/** The controller state listener (`IhcControllerStateListener`): one
    iteration of its `run` loop queries the controller's state when none is
    held yet, waits for a state change and reopens the connection on the
    transitions that mean the controller has (re)started. */
module ControllerStateWatch {
  import opened IhcTypes

  /** The state string a `WSControllerState` reports: Initialize stands for
      `IhcClient.CONTROLLER_STATE_INITIALIZE`, Ready for
      `IhcClient.CONTROLLER_STATE_READY`, and OtherState(name) for any other
      string; an OtherState name is never one of those two, so two states are
      equal exactly when their strings are (`String.equals`). */
  datatype ControllerState = Initialize | Ready | OtherState(name: string)

  /** What `queryControllerState` or `waitStateChangeNotifications` does:
      return a state, or throw. */
  datatype StateAnswer = Got(state: ControllerState) | StateThrows(failure: Failure)

  /** The controller's side of one iteration: the answers of the query and
      the wait, and the outcomes of `IhcConnection.connect()` and
      `IhcConnection.reconnect()`. */
  datatype ControllerOracle = ControllerOracle(query: StateAnswer, wait: StateAnswer, connect: CallOutcome, reconnect: CallOutcome)

  /** The visible effects of an iteration, in order. Backoff is a call of
      `mysleep`. */
  datatype WatchEvent = QueryState | WaitStateChange(prior: ControllerState) | Connect | Reconnect | Backoff

  /** The state held after an iteration (None for `oldState == null`) and
      what the iteration did. */
  datatype WatchResult = WatchResult(held: Option<ControllerState>, events: seq<WatchEvent>)

  /** The transitions after which the connection is reopened: a change away
      from the initialize state, or a change into the ready state. */
  predicate ReopenTransition(prior: ControllerState, current: ControllerState) {
    prior != current && (prior == Initialize || current == Ready)
  }

  /** The catch clauses of `run` for an exception f thrown after events. */
  function Recover(f: Failure, held: Option<ControllerState>, events: seq<WatchEvent>, oracle: ControllerOracle): WatchResult {
    if IsIOException(f) then
      if oracle.reconnect.Succeeds? then WatchResult(held, events + [Reconnect])
      else WatchResult(held, events + [Reconnect, Backoff])
    else WatchResult(held, events + [Backoff])
  }

  /** One iteration of `run`'s loop holding the state held, with the
      communicator present or `null`. */
  function Iteration(held: Option<ControllerState>, communicator: bool, oracle: ControllerOracle): WatchResult {
    if !communicator then WatchResult(held, [Backoff])
    else if held.None? && oracle.query.StateThrows? then Recover(oracle.query.failure, None, [QueryState], oracle)
    else
      var prior := if held.Some? then held.value else oracle.query.state;
      var waited := (if held.None? then [QueryState] else []) + [WaitStateChange(prior)];
      match oracle.wait
      case StateThrows(f) => Recover(f, Some(prior), waited, oracle)
      case Got(current) =>
        if prior == current then WatchResult(Some(prior), waited)
        else if prior == Initialize || current == Ready then
          match oracle.connect
          case Succeeds => WatchResult(Some(current), waited + [Connect])
          case Throws(f) => Recover(f, Some(prior), waited + [Connect], oracle)
        else WatchResult(Some(current), waited)
  }

  /** The state an iteration waits from: the one held, or else the one the
      query returns; None when the query throws. */
  function Baseline(held: Option<ControllerState>, oracle: ControllerOracle): (b: Option<ControllerState>)
    ensures held.Some? ==> b == held
    ensures held.None? ==> (b.Some? <==> oracle.query.Got?)
    ensures held.None? && oracle.query.Got? ==> b == Some(oracle.query.state)
  {
    if held.Some? then held
    else if oracle.query.Got? then Some(oracle.query.state)
    else None
  }

  /** The exception that ends the try block of an iteration, if any. */
  function Thrown(held: Option<ControllerState>, oracle: ControllerOracle): Option<Failure> {
    if held.None? && oracle.query.StateThrows? then Some(oracle.query.failure)
    else if oracle.wait.StateThrows? then Some(oracle.wait.failure)
    else if ReopenTransition(Baseline(held, oracle).value, oracle.wait.state) && oracle.connect.Throws? then
      Some(oracle.connect.failure)
    else None
  }

  /** The connection is reopened exactly when the wait reports a reopen
      transition from the baseline. */
  lemma ConnectExactlyOnReopenTransition(held: Option<ControllerState>, communicator: bool, oracle: ControllerOracle)
    ensures Connect in Iteration(held, communicator, oracle).events <==>
      communicator && Baseline(held, oracle).Some? && oracle.wait.Got?
      && ReopenTransition(Baseline(held, oracle).value, oracle.wait.state)
  {
  }

  /** What recovery appends: a reconnect and back-offs, never a connect. */
  lemma RecoverAppendsNoConnect(f: Failure, held: Option<ControllerState>, events: seq<WatchEvent>, oracle: ControllerOracle)
    ensures var r := Recover(f, held, events, oracle);
      r.events[..|events|] == events && Connect !in r.events[|events|..]
  {
  }

  /** An iteration reopens the connection at most once: a connect is the
      only one among the events. */
  lemma ConnectAtMostOnce(held: Option<ControllerState>, communicator: bool, oracle: ControllerOracle)
    ensures var events := Iteration(held, communicator, oracle).events;
      forall i | 0 <= i < |events| && events[i] == Connect :: Connect !in events[..i] && Connect !in events[i + 1..]
  {
    var events := Iteration(held, communicator, oracle).events;
    if communicator && Baseline(held, oracle).Some? {
      var prior := Baseline(held, oracle).value;
      var waited := (if held.None? then [QueryState] else []) + [WaitStateChange(prior)];
      assert Connect !in waited;
      if oracle.wait.StateThrows? {
        RecoverAppendsNoConnect(oracle.wait.failure, Some(prior), waited, oracle);
        assert events == waited + events[|waited|..];
      } else if ReopenTransition(prior, oracle.wait.state) {
        var connected := waited + [Connect];
        if oracle.connect.Throws? {
          RecoverAppendsNoConnect(oracle.connect.failure, Some(prior), connected, oracle);
        }
        assert events == connected + events[|connected|..];
        assert Connect !in events[|connected|..];
      }
    } else if communicator {
      RecoverAppendsNoConnect(oracle.query.failure, None, [QueryState], oracle);
      assert events == [QueryState] + events[1..];
    }
  }

  /** A change between two states that are neither the initialize nor the
      ready state reopens nothing; the new state is held. */
  lemma OtherTransitionsDoNotReopen(held: Option<ControllerState>, oracle: ControllerOracle, a: string, b: string)
    requires Baseline(held, oracle) == Some(OtherState(a)) && oracle.wait == Got(OtherState(b)) && a != b
    ensures var r := Iteration(held, true, oracle);
      Connect !in r.events && Reconnect !in r.events && Backoff !in r.events && r.held == Some(OtherState(b))
  {
  }

  /** The held state follows the wait's answer, except that it stays at the
      prior state when reopening the connection throws. */
  lemma HeldStateTracksController(held: Option<ControllerState>, oracle: ControllerOracle)
    requires Baseline(held, oracle).Some? && oracle.wait.Got?
    ensures var prior := Baseline(held, oracle).value;
      var r := Iteration(held, true, oracle);
      r.held == (if ReopenTransition(prior, oracle.wait.state) && oracle.connect.Throws? then Some(prior)
                 else Some(oracle.wait.state))
  {
  }

  /** A queried baseline is kept even when the wait after it fails; once a
      state is held, the listener never forgets it. */
  lemma BaselineIsKept(held: Option<ControllerState>, communicator: bool, oracle: ControllerOracle)
    ensures var r := Iteration(held, communicator, oracle);
      && (communicator && Baseline(held, oracle).Some? ==> r.held.Some?)
      && (held.Some? ==> r.held.Some?)
      && (r.held.None? ==> held.None? && (!communicator || oracle.query.StateThrows?))
  {
  }

  /** The query is made only when no state is held, and every iteration with
      a communicator waits from the baseline unless the query threw. */
  lemma QueryOnlyWithoutBaseline(held: Option<ControllerState>, oracle: ControllerOracle)
    ensures var r := Iteration(held, true, oracle);
      && (QueryState in r.events <==> held.None?)
      && (Baseline(held, oracle).Some? ==> WaitStateChange(Baseline(held, oracle).value) in r.events)
  {
  }

  /** The recovery policy: an IOException (a timeout included) reconnects,
      backing off when reconnecting throws; any other exception only backs
      off; an iteration without an exception neither reconnects nor backs
      off, unless there is no communicator. */
  lemma RecoveryPolicy(held: Option<ControllerState>, communicator: bool, oracle: ControllerOracle)
    ensures var r := Iteration(held, communicator, oracle);
      var f := Thrown(held, oracle);
      && (Reconnect in r.events <==> communicator && f.Some? && IsIOException(f.value))
      && (Backoff in r.events <==>
            !communicator || (f.Some? && (!IsIOException(f.value) || oracle.reconnect.Throws?)))
      && (Backoff in r.events ==> r.events[|r.events| - 1] == Backoff)
  {
  }

  /** The listener thread's state: `oldState`, a local of `run` that lives as
      long as the loop. */
  class ControllerStateListener {
    var oldState: Option<ControllerState>

    constructor ()
      ensures oldState.None?
    {
      oldState := None;
    }

    /** One iteration of `run`'s loop. */
    method Iterate(communicator: bool, oracle: ControllerOracle) returns (events: seq<WatchEvent>)
      modifies this
      ensures WatchResult(oldState, events) == Iteration(old(oldState), communicator, oracle)
    {
      if !communicator {
        events := [Backoff];
        return;
      }
      events := [];
      var thrown: Option<Failure> := None;
      if oldState.None? {
        events := [QueryState];
        match oracle.query {
          case Got(s) => oldState := Some(s);
          case StateThrows(f) => thrown := Some(f);
        }
      }
      if thrown.None? {
        var prior := oldState.value;
        events := events + [WaitStateChange(prior)];
        match oracle.wait {
          case StateThrows(f) =>
            thrown := Some(f);
          case Got(current) =>
            if prior != current {
              if prior == Initialize || current == Ready {
                events := events + [Connect];
                if oracle.connect.Throws? {
                  thrown := Some(oracle.connect.failure);
                }
              }
              if thrown.None? {
                oldState := Some(current);
              }
            }
        }
      }
      if thrown.Some? {
        if IsIOException(thrown.value) {
          events := events + [Reconnect];
          if oracle.reconnect.Throws? {
            events := events + [Backoff];
          }
        } else {
          events := events + [Backoff];
        }
      }
    }
  }
}
