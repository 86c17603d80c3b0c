/** `SimpleFlowStateMachine`: a flow together with the id of the current state, moved along the
    flow's transitions by intent names. */
module StateMachine {
  import opened Wrappers
  import opened States
  import opened Flows

  datatype Machine = Machine(flow: Flow, currentStateId: string) {
    /** The invariant both constructors establish and `Send` keeps: the current id names a state
        of the flow. */
    predicate Valid() {
      HasState(flow, currentStateId)
    }
  }

  /** The `IllegalStateException` of the two-argument constructor, with the id it was given
      (`None` for a null id). */
  datatype MachineError = StateNotInFlow(id: Option<string>)

  /** Some state of `f` named `id` has a transition on `intentName` into `target`, and `f`
      defines `target`: taking it is a move `Send` may make. */
  predicate CanMove(f: Flow, id: string, intentName: string, target: string) {
    exists s, t | s in AllStates(f) && s.id == id && t in s.transitions ::
      t.onIntent == intentName && t.to == target && HasState(f, target)
  }

  /** No state of `f` named `id` has a transition on `intentName` into a state `f` defines:
      either nothing matches or every match dangles. */
  predicate Stuck(f: Flow, id: string, intentName: string) {
    forall s, t | s in AllStates(f) && s.id == id && t in s.transitions && t.onIntent == intentName ::
      !HasState(f, t.to)
  }

  /** The one-argument constructor: start in the flow's initial state. */
  function Start(f: Flow): (m: Machine)
    ensures m.Valid()
    ensures m.flow == f && m.currentStateId == f.initialState.id
  {
    InitialStateDefined(f);
    Machine(f, f.initialState.id)
  }

  /** The two-argument constructor: start in the state named `id`, which must exist (a null id
      names no state). */
  function StartAt(f: Flow, id: Option<string>): (r: Result<Machine, MachineError>)
    ensures r.Success? <==> id.Some? && HasState(f, id.value)
    ensures r.Success? ==> r.value.Valid() && r.value.flow == f && r.value.currentStateId == id.value
    ensures r.Failure? ==> r.error == StateNotInFlow(id)
  {
    match id
    case None => Failure(StateNotInFlow(id))
    case Some(i) => if HasState(f, i) then Success(Machine(f, i)) else Failure(StateNotInFlow(id))
  }

  /** `getState()`: a state of the flow named by the current id. */
  method CurrentState(m: Machine) returns (s: State)
    requires m.Valid()
    ensures s in AllStates(m.flow) && s.id == m.currentStateId
    ensures UniqueIds(m.flow) ==> forall u | u in AllStates(m.flow) && u.id == m.currentStateId :: s == u
  {
    var found := GetState(m.flow, m.currentStateId);
    s := found.value;
  }

  /** `getAction()`: the action of the current state. */
  method CurrentAction(m: Machine) returns (a: ActionId)
    requires m.Valid()
    ensures HasAction(m.flow, m.currentStateId, a)
    ensures UniqueIds(m.flow) ==> forall u | u in AllStates(m.flow) && u.id == m.currentStateId :: a == u.action
  {
    var s := CurrentState(m);
    a := s.action;
  }

  /** `transitionToNewState`: move to the transition's target when the flow defines it,
      otherwise stay. */
  method TransitionToNewState(m: Machine, t: Transition) returns (m': Machine)
    requires m.Valid()
    ensures m'.Valid() && m'.flow == m.flow
    ensures HasState(m.flow, t.to) ==> m'.currentStateId == t.to
    ensures !HasState(m.flow, t.to) ==> m' == m
  {
    var target := GetState(m.flow, t.to);
    if target.Some? {
      m' := m.(currentStateId := target.value.id);
    } else {
      m' := m;
    }
  }

  /** `send(intent)`: look up the current state, take a transition on `intentName` if it has one,
      and move to its target if the flow defines it; in every other case stay put. */
  method Send(m: Machine, intentName: string) returns (m': Machine)
    requires m.Valid()
    ensures m'.Valid() && m'.flow == m.flow
    ensures m'.currentStateId == m.currentStateId || CanMove(m.flow, m.currentStateId, intentName, m'.currentStateId)
    ensures Stuck(m.flow, m.currentStateId, intentName) ==> m' == m
    ensures WellFormed(m.flow) ==>
              forall s, t | s in AllStates(m.flow) && s.id == m.currentStateId && t in s.transitions && t.onIntent == intentName ::
                HasState(m.flow, t.to) ==> m'.currentStateId == t.to
  {
    var current := GetState(m.flow, m.currentStateId);
    var transition := GetTransition(current.value, intentName);
    if transition.Some? {
      m' := TransitionToNewState(m, transition.value);
    } else {
      m' := m;
    }
  }

  /** Sending an intent the machine is stuck on changes nothing, however often it is repeated. */
  method SendStuckTwice(m: Machine, intentName: string) returns (once: Machine, twice: Machine)
    requires m.Valid() && Stuck(m.flow, m.currentStateId, intentName)
    ensures once == m && twice == m
  {
    once := Send(m, intentName);
    twice := Send(once, intentName);
  }
}
