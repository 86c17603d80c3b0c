/** States of a flow and the transitions leaving them (`State.java`, `Transition.java`). */
module States {
  import opened Wrappers

  /** The flow author's `StateAction`, reduced to an opaque name: the model records which action
      would be invoked and never runs one. */
  type ActionId = string

  /** An edge of the flow graph: the intent name that triggers it and the id of its target state.
      The target need not exist; that is only discovered when the transition is taken. */
  datatype Transition = Transition(onIntent: string, to: string)

  /** A point of the conversation: its id, the action run on entering it, and its outgoing edges. */
  datatype State = State(id: string, action: ActionId, transitions: set<Transition>)

  /** Some transition of `s` is triggered by the intent `intentName` (exact, case-sensitive
      string equality, no trimming). */
  predicate Triggers(s: State, intentName: string) {
    exists t | t in s.transitions :: t.onIntent == intentName
  }

  /** No two transitions of `s` share an intent name, so at most one matches any intent. */
  predicate UniqueIntents(s: State) {
    forall t, u | t in s.transitions && u in s.transitions && t.onIntent == u.onIntent :: t == u
  }

  /** `State.getTransition`: the first transition, in the set's unspecified iteration order,
      whose intent name equals `intentName` exactly. The choice among several matches is left
      open, as the iteration order of a `Set` of unknown implementation is. */
  method GetTransition(s: State, intentName: string) returns (r: Option<Transition>)
    ensures r.None? <==> !Triggers(s, intentName)
    ensures r.Some? ==> r.value in s.transitions && r.value.onIntent == intentName
    ensures UniqueIntents(s) ==>
              forall t | t in s.transitions && t.onIntent == intentName :: r == Some(t)
    ensures s.transitions == {} ==> r == None
  {
    if exists t | t in s.transitions :: t.onIntent == intentName {
      var t :| t in s.transitions && t.onIntent == intentName;
      r := Some(t);
    } else {
      r := None;
    }
  }
}
