/**
  The engine of esp32/fsm.cpp as it runs: the module's globals become the
  fields of one `Engine` object, the static transition table and event queue
  its two fixed-size arrays. Every operation is proved to follow the value
  model in `FsmSpec`.
 */
module Fsm {
  import opened Wrappers
  import opened FsmTypes
  import opened FsmSpec

  /** The pending events of the circular buffer `buf`, oldest first. */
  function QueueView(buf: seq<Event>, head: int, size: int): (q: seq<Event>)
    requires |buf| == MaxEvents && 0 <= head < MaxEvents && 0 <= size <= MaxEvents
    ensures |q| == size
  {
    seq(size, i requires 0 <= i < size => buf[(head + i) % MaxEvents])
  }

  /** Storing at the tail slot and growing the size appends exactly that event. */
  lemma QueueViewPush(buf: seq<Event>, head: int, size: int, e: Event)
    requires |buf| == MaxEvents && 0 <= head < MaxEvents && 0 <= size < MaxEvents
    ensures QueueView(buf[(head + size) % MaxEvents := e], head, size + 1) == QueueView(buf, head, size) + [e]
  {
    var tail := (head + size) % MaxEvents;
    var after := QueueView(buf[tail := e], head, size + 1);
    forall i | 0 <= i < size
      ensures after[i] == QueueView(buf, head, size)[i]
    {
      assert (head + i) % MaxEvents != tail;
    }
  }

  /** Taking the head slot and advancing the head drops exactly the oldest event. */
  lemma QueueViewPop(buf: seq<Event>, head: int, size: int)
    requires |buf| == MaxEvents && 0 <= head < MaxEvents && 0 < size <= MaxEvents
    ensures QueueView(buf, head, size)[0] == buf[head]
    ensures QueueView(buf, (head + 1) % MaxEvents, size - 1) == QueueView(buf, head, size)[1..]
  {
    var before := QueueView(buf, head, size);
    var after := QueueView(buf, (head + 1) % MaxEvents, size - 1);
    forall i | 0 <= i < size - 1
      ensures after[i] == before[i + 1]
    {
      assert ((head + 1) % MaxEvents + i) % MaxEvents == (head + i + 1) % MaxEvents;
    }
  }

  class Engine {
    /** currentState */
    var currentState: State
    /** transitionTable[MAX_TRANSITIONS]; only the first transitionCount entries are live. */
    const transitionTable: array<Transition>
    var transitionCount: int
    /** eventQueue[MAX_EVENTS], a circular buffer. */
    const eventQueue: array<Event>
    var queueHead: int
    var queueTail: int
    var queueSize: int

    ghost predicate Valid()
      reads this
    {
      && transitionTable.Length == MaxTransitions
      && eventQueue.Length == MaxEvents
      && 0 <= transitionCount <= MaxTransitions
      && 0 <= queueHead < MaxEvents
      && 0 <= queueSize <= MaxEvents
      && queueTail == (queueHead + queueSize) % MaxEvents
    }

    /** The registered transitions, in registration order. */
    ghost function Table(): seq<Transition>
      reads this, transitionTable
      requires Valid()
    {
      transitionTable[..transitionCount]
    }

    /** The current state and the pending events, oldest first. */
    ghost function View(): Machine
      reads this, eventQueue
      requires Valid()
    {
      Machine(currentState, QueueView(eventQueue[..], queueHead, queueSize))
    }

    /** The static initialisation of the globals: state IDLE, zeroed table and queue. */
    constructor ()
      ensures Valid() && fresh(transitionTable) && fresh(eventQueue)
      ensures View() == Machine(Idle, []) && Table() == []
    {
      currentState := Idle;
      transitionTable := new Transition[MaxTransitions](_ => Transition(Idle, Idle, NoEvent, None));
      transitionCount := 0;
      eventQueue := new Event[MaxEvents](_ => NoEvent);
      queueHead, queueTail, queueSize := 0, 0, 0;
    }

    /** fsm_init: set the state, empty the table and the queue. */
    method Init(initialState: State)
      requires Valid()
      modifies this`currentState, this`transitionCount, this`queueHead, this`queueTail, this`queueSize
      ensures Valid()
      ensures View() == Machine(initialState, []) && Table() == []
      ensures queueHead == 0 && queueTail == 0
    {
      currentState := initialState;
      transitionCount := 0;
      queueHead := 0;
      queueTail := 0;
      queueSize := 0;
    }

    /** fsm_register_transition: append `(fromState, toState, event, action)`, or refuse when the table is full. */
    method RegisterTransition(fromState: State, toState: State, event: Event, action: Option<Action>)
      returns (ok: bool)
      requires Valid()
      modifies this`transitionCount, transitionTable
      ensures Valid() && View() == old(View())
      ensures ok <==> old(transitionCount) < MaxTransitions
      ensures (Table(), ok) == Register(old(Table()), Transition(fromState, toState, event, action))
      ensures ok ==> transitionTable[old(transitionCount)] == Transition(fromState, toState, event, action)
      ensures !ok ==> transitionTable[..] == old(transitionTable[..])
    {
      if transitionCount >= MaxTransitions {
        return false;
      }
      ghost var before := Table();
      transitionTable[transitionCount] := Transition(fromState, toState, event, action);
      transitionCount := transitionCount + 1;
      assert Table() == before + [Transition(fromState, toState, event, action)];
      return true;
    }

    /** fsm_push_event: store at the tail and advance it, or drop the event when the queue is full. */
    method PushEvent(event: Event)
      requires Valid()
      modifies this`queueTail, this`queueSize, eventQueue
      ensures Valid()
      ensures View() == Machine(old(currentState), Push(old(View().queue), event))
      ensures old(queueSize) >= MaxEvents ==> unchanged(this) && unchanged(eventQueue)
      ensures old(queueSize) < MaxEvents ==>
        && eventQueue[old(queueTail)] == event
        && queueTail == (old(queueTail) + 1) % MaxEvents
        && queueSize == old(queueSize) + 1
    {
      if queueSize >= MaxEvents {
        return;
      }
      QueueViewPush(eventQueue[..], queueHead, queueSize, event);
      eventQueue[queueTail] := event;
      queueTail := (queueTail + 1) % MaxEvents;
      queueSize := queueSize + 1;
    }

    /**
      fsm_process_events, bounded by `fuel` iterations: while events are
      pending, pop the head and dispatch it. Events that actions push are
      drained by the same call.
     */
    method ProcessEvents(fuel: nat) returns (ghost dispatched: seq<Event>)
      requires Valid()
      modifies this`currentState, this`queueHead, this`queueTail, this`queueSize, eventQueue
      ensures Valid() && Table() == old(Table())
      ensures View() == Drain(Table(), old(View()), fuel).machine
      ensures dispatched == Drain(Table(), old(View()), fuel).dispatched
    {
      ghost var table, cur := Table(), View();
      ghost var goal, trace := Drain(table, cur, fuel).machine, Drain(table, cur, fuel).dispatched;
      dispatched := [];
      var left := fuel;
      while queueSize > 0 && left > 0
        invariant Valid() && Table() == table && View() == cur
        invariant Drain(table, cur, left).machine == goal
        invariant dispatched + Drain(table, cur, left).dispatched == trace
        decreases left
      {
        cur, dispatched := ProcessOne(left, table, cur, goal, trace, dispatched);
        left := left - 1;
      }
      DrainStops(table, cur, left);
    }

    /**
      One iteration of the loop in fsm_process_events, seen from the drain it
      belongs to: with `fuelLeft` iterations still allowed, the drain from the
      new machine ends where the drain from `cur` ends, and the event taken
      is the next one of the drain's trace.
     */
    method ProcessOne(ghost fuelLeft: nat, ghost table: seq<Transition>, ghost cur: Machine, ghost goal: Machine,
                      ghost trace: seq<Event>, ghost done: seq<Event>)
      returns (ghost next: Machine, ghost doneNext: seq<Event>)
      requires Valid() && queueSize > 0 && fuelLeft > 0
      requires Table() == table && View() == cur
      requires Drain(table, cur, fuelLeft).machine == goal
      requires done + Drain(table, cur, fuelLeft).dispatched == trace
      modifies this`currentState, this`queueHead, this`queueTail, this`queueSize, eventQueue
      ensures Valid() && Table() == table && View() == next
      ensures Drain(table, next, fuelLeft - 1).machine == goal
      ensures cur.queue != [] && next == Dispatch(table, Machine(cur.state, cur.queue[1..]), cur.queue[0]).0
      ensures doneNext == done + [cur.queue[0]]
      ensures doneNext + Drain(table, next, fuelLeft - 1).dispatched == trace
    {
      next := ProcessHead(table, cur);
      DrainAdvance(table, cur, next, fuelLeft, done);
      doneNext := done + [cur.queue[0]];
    }

    /**
      The body of the loop in fsm_process_events: pop the head event and
      dispatch it. The new machine is the dispatch of the head in what
      remains, `cur` being the machine before.
     */
    method ProcessHead(ghost table: seq<Transition>, ghost cur: Machine) returns (ghost next: Machine)
      requires Valid() && queueSize > 0
      requires Table() == table && View() == cur
      modifies this`currentState, this`queueHead, this`queueTail, this`queueSize, eventQueue
      ensures Valid() && Table() == table && View() == next
      ensures cur.queue != [] && next == Dispatch(table, Machine(cur.state, cur.queue[1..]), cur.queue[0]).0
    {
      var event := PopHead();
      var matched := DispatchEvent(event);
      next := View();
    }

    /** The first three statements of the loop body in fsm_process_events: take the head event and advance the head. */
    method PopHead() returns (event: Event)
      requires Valid() && queueSize > 0
      modifies this`queueHead, this`queueSize
      ensures Valid()
      ensures event == old(View().queue[0])
      ensures View() == Machine(old(currentState), old(View().queue[1..]))
    {
      QueueViewPop(eventQueue[..], queueHead, queueSize);
      event := eventQueue[queueHead];
      queueHead := (queueHead + 1) % MaxEvents;
      queueSize := queueSize - 1;
    }

    /** fsm_dispatch_event: run the first match's action, then move to its target; false when nothing matches. */
    method DispatchEvent(event: Event) returns (matched: bool)
      requires Valid()
      modifies this`currentState, this`queueTail, this`queueSize, eventQueue
      ensures Valid() && Table() == old(Table())
      ensures View() == Dispatch(Table(), old(View()), event).0
      ensures matched == Dispatch(Table(), old(View()), event).1
    {
      ghost var table, m := Table(), View();
      var found := FindTransition(currentState, event);
      if found.None? {
        assert Dispatch(table, m, event) == (m, false);
        return false;
      }
      var transition := transitionTable[found.value];
      assert transition == table[found.value];
      if transition.action.Some? {
        RunAction(transition.action.value);
      }
      assert View().queue == FsmSpec.RunAction(m.queue, transition.action);
      currentState := transition.nextState;
      assert Dispatch(table, m, event) == (View(), true);
      return true;
    }

    /** Calls an action: it pushes its events one after another. */
    method RunAction(action: Action)
      requires Valid()
      modifies this`queueTail, this`queueSize, eventQueue
      ensures Valid()
      ensures View() == Machine(old(currentState), PushAll(old(View().queue), action.events))
    {
      for i := 0 to |action.events|
        invariant Valid()
        invariant currentState == old(currentState)
        invariant PushAll(View().queue, action.events[i..]) == PushAll(old(View().queue), action.events)
      {
        assert action.events[i..][1..] == action.events[i + 1..];
        PushEvent(action.events[i]);
      }
    }

    /** find_transition: a scan of the live entries in registration order; the first match wins. */
    method FindTransition(state: State, event: Event) returns (r: Option<nat>)
      requires Valid()
      ensures r.Some? ==> r.value < transitionCount && Matches(transitionTable[r.value], state, event)
      ensures r.Some? ==> forall j :: 0 <= j < r.value ==> !Matches(transitionTable[j], state, event)
      ensures r.None? <==> forall j :: 0 <= j < transitionCount ==> !Matches(transitionTable[j], state, event)
      ensures r == FirstMatch(Table(), state, event)
    {
      for i := 0 to transitionCount
        invariant forall j :: 0 <= j < i ==> !Matches(transitionTable[j], state, event)
      {
        if Matches(transitionTable[i], state, event) {
          FirstMatchIsLowest(Table(), state, event, i);
          return Some(i);
        }
      }
      assert forall j :: 0 <= j < transitionCount ==> Table()[j] == transitionTable[j];
      FirstMatchIsFirst(Table(), state, event);
      return None;
    }

    /** fsm_get_current_state: a pure read. */
    method GetCurrentState() returns (s: State)
      requires Valid()
      ensures s == View().state
    {
      s := currentState;
    }

    /** fsm_set_current_state: overwrite the state; the table and the queue stay as they are. */
    method SetCurrentState(state: State)
      requires Valid()
      modifies this`currentState
      ensures Valid() && Table() == old(Table())
      ensures View() == Machine(state, old(View().queue))
    {
      currentState := state;
    }

    /** fsm_reset: the same effect as fsm_init. */
    method Reset(initialState: State)
      requires Valid()
      modifies this`currentState, this`transitionCount, this`queueHead, this`queueTail, this`queueSize
      ensures Valid()
      ensures View() == Machine(initialState, []) && Table() == []
      ensures queueHead == 0 && queueTail == 0
    {
      Init(initialState);
    }
  }
}
