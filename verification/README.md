# alexa-flow in Dafny

A model of the core of alexa-flow, a small Java library for writing Alexa skills as flows.
A **flow** is a graph of **states**. Each state has an id, an action run on entering it, and
**transitions** that name an intent and the id of the state they lead to. A
`SimpleFlowStateMachine` keeps the id of the current state and moves along transitions as
intents arrive. `FlowSpeechlet` writes the initial state's id into the `"currentState"`
session attribute when a session starts. On launch and intent requests it rebuilds the machine
from that attribute, and only an intent request writes the id back. `FlowStreamHandler` reads the skill's
application ids from a comma-separated environment variable.

Modules, one per Java class:

- `Wrappers` (`wrappers.dfy`): `Option` and `Result`.
- `States` (`states.dfy`): `State`, `Transition` and `State.getTransition`.
- `Flows` (`flows.dfy`): `Flow`, its builder and `Flow.getState`.
- `StateMachine` (`state_machine.dfy`): `SimpleFlowStateMachine`. It is an immutable `Machine`
  value whose `Valid()` invariant says that the current id names a state of the flow.
- `Speechlet` (`speechlet.dfy`): the four request handlers. The session is a
  `map<string, string>`. A handler returns the list of its effects in order: session writes
  and action invocations. An exception is a `Failure` produced before any effect.
- `StreamHandler` (`stream_handler.dfy`): `applicationIds()`, with the environment value as an
  `Option<string>` parameter. `String.split(",\\s*")` and `String.trim` are written out as
  Java defines them.
- `Scenarios` (`scenarios.dfy`): the two-state flow of the state-machine unit tests, run
  through the model.

Java looks states and transitions up by streaming a set and taking `findFirst`.
`Flow.getState` streams a fresh `HashSet`. `State.getTransition` streams the state's
`transitions` field, a `Set` of whatever implementation the builder or a setter supplied.
Neither iteration order is specified. `Flows.GetState` and `States.GetTransition` are
therefore methods that may return any matching element. Their contracts give the exact
element only when it is unique: `UniqueIds` for state ids, `UniqueIntents` for a state's
intents, and `WellFormed` for both together.

## Model

| member | source | states |
|---|---|---|
| States.GetTransition | src/main/java/uk/co/claritysoftware/alexa/flow/model/State.java:43-48 | Empty exactly when no transition's intent name equals the given one, compared as exact strings with no case folding or trimming. Otherwise a member of the state's transitions with that intent name. The single such transition when intents are unique. Always empty for a state without transitions. |
| Flows.Build | src/main/java/uk/co/claritysoftware/alexa/flow/model/Flow.java:18-33 | Building fails exactly when the initial state is null. A built flow keeps that initial state and holds exactly the intent states that were added. |
| Flows.GetState | src/main/java/uk/co/claritysoftware/alexa/flow/model/Flow.java:42-51 | Present exactly when the initial state or some intent state has the id. The result is one of those states and carries that id. Under unique ids it is that very state. |
| Flows.InitialStateDefined | src/main/java/uk/co/claritysoftware/alexa/flow/model/Flow.java:43-45 | The initial state's id is always found. |
| Flows.UnknownIdUndefined | src/main/java/uk/co/claritysoftware/alexa/flow/model/Flow.java:47-50 | An id that is neither the initial state's nor any intent state's is not found. |
| Flows.OnlyInitialState | src/test/java/uk/co/claritysoftware/alexa/flow/model/FlowTest.java:79-91 | A flow built without intent states finds exactly its initial state's id. |
| StateMachine.Start | src/main/java/uk/co/claritysoftware/alexa/flow/SimpleFlowStateMachine.java:25-28 | The one-argument constructor starts in the initial state, and the machine is valid. |
| StateMachine.StartAt | src/main/java/uk/co/claritysoftware/alexa/flow/SimpleFlowStateMachine.java:30-35 | The two-argument constructor succeeds exactly when the id is non-null and names a state of the flow. It then yields a valid machine at that id. Otherwise it fails with the id it was given. |
| StateMachine.CurrentState | src/main/java/uk/co/claritysoftware/alexa/flow/SimpleFlowStateMachine.java:47-50 | On a valid machine, a state of the flow whose id is the current id. Under unique ids it is that very state. |
| StateMachine.CurrentAction | src/main/java/uk/co/claritysoftware/alexa/flow/SimpleFlowStateMachine.java:40-42 | The action of a state named by the current id. Under unique ids it is that state's action. |
| StateMachine.TransitionToNewState | src/main/java/uk/co/claritysoftware/alexa/flow/SimpleFlowStateMachine.java:71-74 | Moves to the transition's target when the flow defines it, and otherwise changes nothing. Validity and the flow are kept. |
| StateMachine.Send | src/main/java/uk/co/claritysoftware/alexa/flow/SimpleFlowStateMachine.java:57-69 | Validity and the flow are kept. The machine either stays or makes a move the flow allows (`CanMove`). It stays when no matching transition leads to a defined state (`Stuck`). In a well-formed flow it follows the matching transition whenever that transition's target is defined. |
| StateMachine.SendStuckTwice | src/main/java/uk/co/claritysoftware/alexa/flow/SimpleFlowStateMachine.java:64-68 | Sending an intent the machine is stuck on, once or twice, leaves it exactly as it was. |
| Speechlet.ApplyTouchesOnly | src/main/java/uk/co/claritysoftware/alexa/flow/speech/FlowSpeechlet.java:83 | Effects that write only one key leave every other session attribute as it was. |
| Speechlet.OnSessionStarted | src/main/java/uk/co/claritysoftware/alexa/flow/speech/FlowSpeechlet.java:37-45 | The only effect writes the initial state's id under `"currentState"`. Afterwards the session names a state of the flow. |
| Speechlet.OnLaunch | src/main/java/uk/co/claritysoftware/alexa/flow/speech/FlowSpeechlet.java:53-63 | Fails, with no effect, exactly when `"currentState"` is missing or names no state. The error carries the value read. Otherwise the only effect runs the action of the state the session names, and the speechlet writes nothing to the session. |
| Speechlet.OnIntent | src/main/java/uk/co/claritysoftware/alexa/flow/speech/FlowSpeechlet.java:72-86 | Fails, with no effect, under the same condition as launch. Otherwise it first writes a defined state id under `"currentState"`, then runs that state's action. That id is the old one or a move the flow allows. It is the old one when the intent is stuck, and the matching transition's target in a well-formed flow. The speechlet writes no other attribute. |
| Speechlet.OnSessionEnded | src/main/java/uk/co/claritysoftware/alexa/flow/speech/FlowSpeechlet.java:88-91 | There is no effect at all: the session is unchanged and no action runs. |
| Speechlet.Converse | src/main/java/uk/co/claritysoftware/alexa/flow/speech/FlowSpeechlet.java:37-86 | With actions that do not write the session: in a session that starts and then handles launch and intent requests in turn, every request succeeds and runs one action of the flow. The session always names a state of the flow, and no other attribute ever changes. |
| StreamHandler.ApplicationIds | src/main/java/uk/co/claritysoftware/alexa/flow/FlowStreamHandler.java:26-39 | On success the set of ids is non-empty, and every id in it is non-empty and trimmed. |
| StreamHandler.TrimCutsOnlyBlanks | src/main/java/uk/co/claritysoftware/alexa/flow/FlowStreamHandler.java:29 | `trim` returns an infix of its argument, and everything it cut off on either side is a blank (a code point up to the space). |
| StreamHandler.SeparatorPiecesAreCommaPieces | src/main/java/uk/co/claritysoftware/alexa/flow/FlowStreamHandler.java:28 | The pieces the regular-expression split cuts (`SeparatorPieces`, before `split` discards trailing empty strings) are the text between consecutive commas, minus the `\s` characters right after each comma. |
| StreamHandler.ApplicationIdsByCommaPieces | src/main/java/uk/co/claritysoftware/alexa/flow/FlowStreamHandler.java:27-35 | The result equals that of a plain reading: cut at every comma, trim, drop the empty pieces, fail when nothing is left. An unset variable reads as the empty string. |
| StreamHandler.PieceAppearsIffNotBlank | src/main/java/uk/co/claritysoftware/alexa/flow/FlowStreamHandler.java:28-31 | Each comma-separated piece that is not blank is in the result, trimmed. Every id in the result is the trimmed form of some piece. |
| StreamHandler.IdsOfMembers | src/main/java/uk/co/claritysoftware/alexa/flow/FlowStreamHandler.java:28-31 | A string is collected exactly when it is non-empty and some piece trims to it. |
| StreamHandler.FailsIffOnlyCommasAndBlanks | src/main/java/uk/co/claritysoftware/alexa/flow/FlowStreamHandler.java:27-35 | The handler refuses to start exactly when the value holds nothing but commas and blanks. A missing value counts as empty. |
| StreamHandler.MissingOrBlankRefused | src/test/java/uk/co/claritysoftware/alexa/flow/FlowStreamHandlerTest.java:66-117 | An unset variable, `""` and `",, , "` are all refused. |
| StreamHandler.SingleId | src/test/java/uk/co/claritysoftware/alexa/flow/FlowStreamHandlerTest.java:24-36 | A value without commas that is not blank yields exactly its trimmed form. |
| StreamHandler.TwoIds | src/test/java/uk/co/claritysoftware/alexa/flow/FlowStreamHandlerTest.java:38-50 | Two trimmed ids without commas, joined by a bare comma, yield exactly those two ids. |
| StreamHandler.TwoIdsWithoutSpaces | src/test/java/uk/co/claritysoftware/alexa/flow/FlowStreamHandlerTest.java:38-50 | `"1234,5678"` yields `{1234, 5678}`. |
| StreamHandler.SplitThreeWithBlank | src/main/java/uk/co/claritysoftware/alexa/flow/FlowStreamHandler.java:28 | For trimmed ids a, b and c without commas, splitting `a, b, ,c` gives four pieces: `a`, `b`, an empty piece, then `c`. |
| StreamHandler.ThreeIdsWithBlank | src/test/java/uk/co/claritysoftware/alexa/flow/FlowStreamHandlerTest.java:52-64 | Three ids with spaces after the commas and a blank entry between them yield exactly those three ids. |
| StreamHandler.ThreeIdsWithSpaces | src/test/java/uk/co/claritysoftware/alexa/flow/FlowStreamHandlerTest.java:52-64 | `"1234, 5678, ,9012"` yields `{1234, 5678, 9012}`. |
| Scenarios.StartsInInitialState | src/test/java/uk/co/claritysoftware/alexa/flow/SimpleFlowStateMachineTest.java:57-77 | A new machine on the test flow is in the initial state and offers its action. |
| Scenarios.ForwardIntentMoves | src/test/java/uk/co/claritysoftware/alexa/flow/SimpleFlowStateMachineTest.java:79-89 | The forward intent moves the machine to `state1`, whose action it then offers. |
| Scenarios.UnknownIntentStays | src/test/java/uk/co/claritysoftware/alexa/flow/SimpleFlowStateMachineTest.java:91-101 | An intent no transition names leaves the machine in the initial state. |
| Scenarios.StartAtNamedState | src/test/java/uk/co/claritysoftware/alexa/flow/SimpleFlowStateMachineTest.java:103-129 | Starting at `state1` yields `state1`. Starting at an id the flow lacks fails with that id. |
| Scenarios.LaunchThenForward | src/main/java/uk/co/claritysoftware/alexa/flow/speech/FlowSpeechlet.java:37-86 | On the test flow, starting, launching and sending the forward intent runs the initial action and then `state1`'s, and, with actions that do not write the session, leaves `"currentState"` at `state1`. |

## Left out

- `Application.java`: the Spring context bootstrap is framework and concurrency code.
- The action interfaces (`StateAction` and the interfaces extending it) are callables over Alexa SDK envelopes. An action is an opaque name (`ActionId`). The model records which action runs, not what it returns. In Java an action receives the whole request envelope, including the session, and could write any attribute, `"currentState"` included. The model assumes actions leave the session alone, so its session claims describe the speechlet's own writes. `FlowNotLaunchedAction` is declared but never used by the speechlet, so there is no fallback path.
- Alexa SDK types: the request envelope, the session object, the response, and the extraction of the intent name from a request. The session becomes a string map and the intent a string.
- The `FlowStreamHandler` constructor: the `getBean` lookup, the `System.getenv` read and the superclass wiring. The variable's value is a parameter.
- Logging has no behavioural content.
- Null values are not represented, except a missing `"currentState"` attribute, which the two-argument constructor rejects because it names no state. Two other nulls need no separate case, because Java treats them like values the model already has. A null intent name reaching `send` matches no transition (`equals(null)` is false), so it behaves like an intent no transition names. A null transition target is found by no `getState` lookup, so it behaves like a target the flow does not define. The remaining nulls make Java throw, and the model leaves them out: a null state id (in `getState`), a null `onIntent` seen by `send`, and a null action (invoked by the speechlet). A non-string `"currentState"` attribute also throws, with a `ClassCastException`.
- `State` and `Transition` are mutable Java beans. The model treats them as values, so no lookup can change a flow, state or transition: `getState` builds a fresh set, and `getTransition` only reads.
- `send` in Java filters the current state's transitions itself rather than calling `getTransition`. With non-null intent names the two match the same transitions, so the model reuses `States.GetTransition`.
- `FlowSpeechletTest.java` exercises a different version of the flow model, built from an initial state id and expecting `onLaunch` to write the session. The model follows `FlowSpeechlet.java`, where `onLaunch` writes nothing and an unknown session id is an error rather than a fallback.
- Flows.GetState, States.GetTransition: exact answers are stated only under unique ids or intents. With duplicates, Java's answer depends on the set's iteration order, so the model allows any matching element.
