/**
  The declarations of esp32/fsm.h: the closed sets of states and events,
  the transition record and the two build-time capacities.
 */
module FsmTypes {
  import opened Wrappers

  /** MAX_TRANSITIONS: capacity of the transition table. */
  const MaxTransitions := 32

  /** MAX_EVENTS: capacity of the circular event queue. */
  const MaxEvents := 16

  /** STATE_IDLE, STATE_PROCESSING, STATE_WAITING, STATE_ERROR, STATE_COMPLETE. */
  datatype State = Idle | Processing | Waiting | Error | Complete

  /** EVENT_NONE, EVENT_START, EVENT_STOP, EVENT_TIMEOUT, EVENT_SUCCESS, EVENT_FAILURE. */
  datatype Event = NoEvent | Start | Stop | Timeout | Success | Failure

  /**
    An action callback (`ActionFunction`), abstracted to the one effect it can
    have on the engine: the events it pushes onto the event queue, in order.
    Its effects on the outside world (outputs, logging) are not modelled.
   */
  datatype Action = PushEvents(events: seq<Event>)

  /** One row of the transition table; `action` is `None` for a NULL callback. */
  datatype Transition = Transition(
    currentState: State,
    nextState: State,
    transitionEvent: Event,
    action: Option<Action>)
}
