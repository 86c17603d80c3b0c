/** `FlowSpeechlet`: the request handlers that keep the current state id in the session between
    requests. A handler's observable behaviour is the list of its effects, in order: session
    writes and action invocations. A handler that fails has thrown before any effect. An action
    receives the request envelope, session included, in Java; here it is assumed to leave the
    session alone, so the session changes only through the speechlet's own writes. */
module Speechlet {
  import opened Wrappers
  import opened States
  import opened Flows
  import opened StateMachine

  /** The one session attribute the speechlet owns. */
  const CurrentStateKey: string := "currentState"

  /** The session's attributes; the platform's session object is reduced to them. */
  type Session = map<string, string>

  datatype Effect =
    | SetAttribute(key: string, value: string)  // session.setAttribute(key, value)
    | DoAction(action: ActionId)                 // action.doAction(envelope), its response returned

  /** The session as it stands after `effects` have happened, in order. */
  function Apply(session: Session, effects: seq<Effect>): Session
    decreases |effects|
  {
    if effects == [] then session
    else
      var next := match effects[0]
        case SetAttribute(k, v) => session[k := v]
        case DoAction(_) => session;
      Apply(next, effects[1..])
  }

  /** `session.getAttribute("currentState")`, null when absent. */
  function CurrentStateOf(session: Session): Option<string> {
    if CurrentStateKey in session then Some(session[CurrentStateKey]) else None
  }

  /** The session names a state of the flow, so the handlers can rebuild the state machine. */
  predicate Launched(f: Flow, session: Session) {
    CurrentStateKey in session && HasState(f, session[CurrentStateKey])
  }

  /** Effects that write no attribute other than `key` leave every other attribute as it was. */
  lemma {:induction false} ApplyTouchesOnly(session: Session, effects: seq<Effect>, key: string)
    requires forall i | 0 <= i < |effects| && effects[i].SetAttribute? :: effects[i].key == key
    ensures Apply(session, effects) - {key} == session - {key}
    decreases |effects|
  {
    if effects != [] {
      var next := match effects[0]
        case SetAttribute(k, v) => session[k := v]
        case DoAction(_) => session;
      assert next - {key} == session - {key};
      assert forall i | 0 <= i < |effects[1..]| && effects[1..][i].SetAttribute? :: effects[1..][i].key == key by {
        forall i | 0 <= i < |effects[1..]| && effects[1..][i].SetAttribute?
          ensures effects[1..][i].key == key
        {
          assert effects[1..][i] == effects[i + 1];
        }
      }
      ApplyTouchesOnly(next, effects[1..], key);
    }
  }

  /** `onSessionStarted`: record the initial state's id in the session; no action runs. */
  method OnSessionStarted(f: Flow, session: Session) returns (effects: seq<Effect>)
    ensures effects == [SetAttribute(CurrentStateKey, f.initialState.id)]
    ensures Launched(f, Apply(session, effects))
  {
    var machine := Start(f);
    var state := CurrentState(machine);
    effects := [SetAttribute(CurrentStateKey, state.id)];
    assert Apply(session, effects) == session[CurrentStateKey := state.id];
  }

  /** `onLaunch`: run the action of the state the session names, without writing the session.
      A session naming no state of the flow makes the state machine's constructor throw. */
  method OnLaunch(f: Flow, session: Session) returns (r: Result<seq<Effect>, MachineError>)
    ensures r.Failure? <==> !Launched(f, session)
    ensures r.Failure? ==> r.error == StateNotInFlow(CurrentStateOf(session))
    ensures r.Success? ==>
              && |r.value| == 1 && r.value[0].DoAction?
              && HasAction(f, session[CurrentStateKey], r.value[0].action)
    ensures r.Success? ==> Apply(session, r.value) == session
  {
    var machine := StartAt(f, CurrentStateOf(session));
    if machine.Failure? {
      return Failure(machine.error);
    }
    var action := CurrentAction(machine.value);
    r := Success([DoAction(action)]);
  }

  /** `onIntent`: rebuild the machine from the session, send it the intent, write the id of the
      state it is in now, then run that state's action. */
  method OnIntent(f: Flow, session: Session, intentName: string) returns (r: Result<seq<Effect>, MachineError>)
    ensures r.Failure? <==> !Launched(f, session)
    ensures r.Failure? ==> r.error == StateNotInFlow(CurrentStateOf(session))
    ensures r.Success? ==>
              && |r.value| == 2 && r.value[0].SetAttribute? && r.value[1].DoAction?
              && r.value[0].key == CurrentStateKey
              && HasState(f, r.value[0].value)
              && HasAction(f, r.value[0].value, r.value[1].action)
    ensures r.Success? ==>
              || r.value[0].value == session[CurrentStateKey]
              || CanMove(f, session[CurrentStateKey], intentName, r.value[0].value)
    ensures r.Success? && Stuck(f, session[CurrentStateKey], intentName) ==>
              r.value[0].value == session[CurrentStateKey]
    ensures r.Success? && WellFormed(f) ==>
              forall s, t | s in AllStates(f) && s.id == session[CurrentStateKey] && t in s.transitions && t.onIntent == intentName ::
                HasState(f, t.to) ==> r.value[0].value == t.to
    ensures r.Success? ==> Apply(session, r.value) == session[CurrentStateKey := r.value[0].value]
  {
    var machine := StartAt(f, CurrentStateOf(session));
    if machine.Failure? {
      return Failure(machine.error);
    }
    var moved := Send(machine.value, intentName);
    var state := CurrentState(moved);
    var action := CurrentAction(moved);
    r := Success([SetAttribute(CurrentStateKey, state.id), DoAction(action)]);
    assert Apply(session, r.value) == Apply(session[CurrentStateKey := state.id], [DoAction(action)]);
  }

  /** `onSessionEnded`: nothing happens. */
  method OnSessionEnded(f: Flow, session: Session) returns (effects: seq<Effect>)
    ensures effects == []
    ensures Apply(session, effects) == session
    ensures forall i | 0 <= i < |effects| :: !effects[i].DoAction?
  {
    effects := [];
  }

  /** A request the platform delivers to a session after it has started. */
  datatype Request = LaunchRequest | IntentRequest(intentName: string)

  /** Some state of `f` carries the action `a`. */
  predicate IsFlowAction(f: Flow, a: ActionId) {
    exists s | s in AllStates(f) :: s.action == a
  }

  /** A session served by the speechlet alone, with actions that do not write the session:
      started, then each request handled in turn with the speechlet's writes kept in the session.
      Every request then succeeds and runs an action of the flow, the session always names a
      state of the flow, and no attribute but the current state changes. */
  method Converse(f: Flow, session: Session, requests: seq<Request>) returns (final: Session, actions: seq<ActionId>)
    ensures |actions| == |requests|
    ensures forall i | 0 <= i < |actions| :: IsFlowAction(f, actions[i])
    ensures Launched(f, final)
    ensures final - {CurrentStateKey} == session - {CurrentStateKey}
  {
    var started := OnSessionStarted(f, session);
    final := Apply(session, started);
    ApplyTouchesOnly(session, started, CurrentStateKey);
    actions := [];
    var i := 0;
    while i < |requests|
      invariant 0 <= i <= |requests|
      invariant |actions| == i
      invariant forall j | 0 <= j < i :: IsFlowAction(f, actions[j])
      invariant Launched(f, final)
      invariant final - {CurrentStateKey} == session - {CurrentStateKey}
    {
      var r: Result<seq<Effect>, MachineError>;
      match requests[i] {
        case LaunchRequest => r := OnLaunch(f, final);
        case IntentRequest(name) => r := OnIntent(f, final, name);
      }
      var effects := r.value;
      var action := effects[|effects| - 1].action;
      assert IsFlowAction(f, action);
      ApplyTouchesOnly(final, effects, CurrentStateKey);
      final := Apply(final, effects);
      actions := actions + [action];
      i := i + 1;
    }
  }
}
