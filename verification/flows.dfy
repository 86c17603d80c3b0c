/** The flow definition (`Flow.java`): an initial state entered on launch and a set of intent
    states, searched together by id. */
module Flows {
  import opened Wrappers
  import opened States

  datatype Flow = Flow(initialState: State, intentStates: set<State>)

  /** The states `getState` searches: the intent states together with the initial state. */
  function AllStates(f: Flow): set<State> {
    f.intentStates + {f.initialState}
  }

  /** `f` defines a state named `id`. */
  predicate HasState(f: Flow, id: string) {
    exists s | s in AllStates(f) :: s.id == id
  }

  /** Some state of `f` named `id` carries the action `a`. */
  predicate HasAction(f: Flow, id: string, a: ActionId) {
    exists s | s in AllStates(f) && s.id == id :: s.action == a
  }

  /** No two distinct states of `f` share an id. */
  predicate UniqueIds(f: Flow) {
    forall s, u | s in AllStates(f) && u in AllStates(f) && s.id == u.id :: s == u
  }

  /** State ids are unique and no state has two transitions on one intent: under this, every
      lookup of the model has exactly one possible answer. */
  predicate WellFormed(f: Flow) {
    UniqueIds(f) && forall s | s in AllStates(f) :: UniqueIntents(s)
  }

  datatype BuildError = NullInitialState

  /** `Flow.flowBuilder()...build()`: the initial state is mandatory (a null one is rejected),
      and the intent states added one by one are collected into a set, empty when none was added. */
  function Build(initialState: Option<State>, intentStates: seq<State>): (r: Result<Flow, BuildError>)
    ensures r.Failure? <==> initialState.None?
    ensures r.Success? ==> r.value.initialState == initialState.value
    ensures r.Success? ==> forall s :: s in r.value.intentStates <==> s in intentStates
  {
    match initialState
    case None => Failure(NullInitialState)
    case Some(init) => Success(Flow(init, set s | s in intentStates))
  }

  /** `Flow.getState`: the first state, in the unspecified iteration order of a fresh hash set of
      all states, whose id equals `id`. When ids are unique the answer is the state itself. */
  method GetState(f: Flow, id: string) returns (r: Option<State>)
    ensures r.Some? <==> HasState(f, id)
    ensures r.Some? ==> r.value in AllStates(f) && r.value.id == id
    ensures UniqueIds(f) ==> forall s | s in AllStates(f) && s.id == id :: r == Some(s)
  {
    var allStates := f.intentStates + {f.initialState};
    if exists s | s in allStates :: s.id == id {
      var s :| s in allStates && s.id == id;
      r := Some(s);
    } else {
      r := None;
    }
  }

  /** The initial state can always be found by its id. */
  lemma InitialStateDefined(f: Flow)
    ensures HasState(f, f.initialState.id)
  {
    assert f.initialState in AllStates(f);
  }

  /** An id that names neither the initial state nor any intent state is not found. */
  lemma UnknownIdUndefined(f: Flow, id: string)
    requires id != f.initialState.id
    requires forall s | s in f.intentStates :: s.id != id
    ensures !HasState(f, id)
  {
  }

  /** A flow built without intent states defines exactly one id, its initial state's. */
  lemma OnlyInitialState(init: State, id: string)
    ensures Build(Some(init), []).Success?
    ensures HasState(Build(Some(init), []).value, id) <==> id == init.id
  {
    var f := Build(Some(init), []).value;
    assert f.intentStates == {};
    assert AllStates(f) == {init};
  }
}
