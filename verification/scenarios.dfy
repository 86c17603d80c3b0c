/** The two-state flow of the state machine's unit tests: an initial state whose only
    transition leads on `forwardIntent` to `state1`, and `state1`, which has no way out. */
module Scenarios {
  import opened Wrappers
  import opened States
  import opened Flows
  import opened StateMachine
  import opened Speechlet

  const ForwardIntent: string := "forwardIntent"
  const State1: State := State("state1", "state1Action", {})
  const InitialState: State := State("initial-state", "initialStateAction", {Transition(ForwardIntent, "state1")})
  const TestFlow: Flow := Flow(InitialState, {State1})

  /** The test flow has one state per id and one transition per intent. */
  lemma TestFlowWellFormed()
    ensures WellFormed(TestFlow)
  {
    assert AllStates(TestFlow) == {State1, InitialState};
    assert InitialState.id != State1.id;
  }

  /** A machine built on the flow alone is in the initial state and offers its action. */
  method StartsInInitialState() returns (s: State, a: ActionId)
    ensures s == InitialState && a == "initialStateAction"
  {
    TestFlowWellFormed();
    InitialStateDefined(TestFlow);
    var m := Start(TestFlow);
    s := CurrentState(m);
    a := CurrentAction(m);
  }

  /** Sending the forward intent moves the machine to `state1`, whose action it then offers. */
  method ForwardIntentMoves() returns (a: ActionId)
    ensures a == "state1Action"
  {
    TestFlowWellFormed();
    var m := Start(TestFlow);
    assert Transition(ForwardIntent, "state1") in InitialState.transitions;
    assert HasState(TestFlow, "state1") by {
      assert State1 in AllStates(TestFlow);
    }
    m := Send(m, ForwardIntent);
    a := CurrentAction(m);
  }

  /** An intent no transition names leaves the machine in the initial state. */
  method UnknownIntentStays() returns (a: ActionId)
    ensures a == "initialStateAction"
  {
    TestFlowWellFormed();
    var m := Start(TestFlow);
    assert Stuck(TestFlow, m.currentStateId, "some invalid intent") by {
      assert AllStates(TestFlow) == {State1, InitialState};
    }
    m := Send(m, "some invalid intent");
    a := CurrentAction(m);
  }

  /** The two-argument constructor accepts `state1` and rejects an id the flow does not define. */
  method StartAtNamedState() returns (s: State)
    ensures s == State1
    ensures StartAt(TestFlow, Some("some-invalid-state-id")) == Failure(StateNotInFlow(Some("some-invalid-state-id")))
  {
    TestFlowWellFormed();
    assert State1 in AllStates(TestFlow);
    var m := StartAt(TestFlow, Some("state1"));
    s := CurrentState(m.value);
    UnknownIdUndefined(TestFlow, "some-invalid-state-id");
  }

  /** A session that launches and then hears the forward intent runs the initial action, then
      `state1`'s, and ends up naming `state1`. */
  method LaunchThenForward(session: Session) returns (final: Session, actions: seq<ActionId>)
    ensures actions == ["initialStateAction", "state1Action"]
    ensures CurrentStateOf(final) == Some("state1")
  {
    TestFlowWellFormed();
    var started := OnSessionStarted(TestFlow, session);
    final := Apply(session, started);
    assert final == session[CurrentStateKey := "initial-state"] by {
      assert started == [SetAttribute(CurrentStateKey, "initial-state")];
      assert started[1..] == [];
      assert Apply(session, started) == Apply(session[CurrentStateKey := "initial-state"], []);
    }
    var launched := OnLaunch(TestFlow, final);
    assert AllStates(TestFlow) == {State1, InitialState};
    assert launched.value[0].action == "initialStateAction";
    final := Apply(final, launched.value);
    assert Transition(ForwardIntent, "state1") in InitialState.transitions;
    assert State1 in AllStates(TestFlow);
    var moved := OnIntent(TestFlow, final, ForwardIntent);
    assert moved.value[0].value == "state1";
    final := Apply(final, moved.value);
    actions := [launched.value[0].action, moved.value[1].action];
  }
}
