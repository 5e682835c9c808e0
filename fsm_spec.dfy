/**
  The behaviour of the engine in esp32/fsm.cpp, stated on values: the
  transition table as the sequence of its registered entries and the event
  queue as the sequence of its pending events, oldest first. The class in
  fsm.dfy is proved to follow these functions; the lemmas here state what
  they promise.
 */
module FsmSpec {
  import opened Wrappers
  import opened FsmTypes

  /** The state that dispatching changes: the current state and the pending events. */
  datatype Machine = Machine(state: State, queue: seq<Event>)

  /** What a drain leaves behind, and the events it dispatched in the order it dispatched them. */
  datatype Drained = Drained(machine: Machine, dispatched: seq<Event>)

  predicate Matches(t: Transition, s: State, e: Event)
  {
    t.currentState == s && t.transitionEvent == e
  }

  // ---------------------------------------------------------------- lookup

  /** find_transition: the index of the lowest entry that matches `(s, e)`, if any. */
  function FirstMatch(table: seq<Transition>, s: State, e: Event): (r: Option<nat>)
    ensures r.Some? ==> r.value < |table| && Matches(table[r.value], s, e)
  {
    if |table| == 0 then None
    else if Matches(table[0], s, e) then Some(0)
    else match FirstMatch(table[1..], s, e)
      case None => None
      case Some(i) => Some(i + 1)
  }

  /**
    The lookup is exact and takes the lowest entry: a found entry has no match
    before it, and nothing is found exactly when no live entry matches.
   */
  lemma {:induction false} FirstMatchIsFirst(table: seq<Transition>, s: State, e: Event)
    ensures FirstMatch(table, s, e).Some? ==>
      forall j :: 0 <= j < FirstMatch(table, s, e).value ==> !Matches(table[j], s, e)
    ensures FirstMatch(table, s, e).None? <==> forall j :: 0 <= j < |table| ==> !Matches(table[j], s, e)
  {
    if |table| > 0 && !Matches(table[0], s, e) {
      FirstMatchIsFirst(table[1..], s, e);
      assert forall j :: 1 <= j < |table| ==> table[j] == table[1..][j - 1];
    }
  }

  /** Appending an entry never changes an existing lookup result; it can only fill a missing one. */
  lemma {:induction false} FirstMatchAppend(table: seq<Transition>, t: Transition, s: State, e: Event)
    ensures FirstMatch(table + [t], s, e) ==
      if FirstMatch(table, s, e).Some? then FirstMatch(table, s, e)
      else if Matches(t, s, e) then Some(|table|)
      else None
  {
    var grown := table + [t];
    assert forall j :: 0 <= j < |table| ==> grown[j] == table[j];
    assert grown[|table|] == t;
    FirstMatchIsFirst(table, s, e);
    FirstMatchIsFirst(grown, s, e);
  }

  // ---------------------------------------------------------- registration

  /** fsm_register_transition: append when there is room, otherwise refuse and keep the table. */
  function Register(table: seq<Transition>, t: Transition): (r: (seq<Transition>, bool))
    ensures r.1 <==> |table| < MaxTransitions
    ensures table <= r.0 && |r.0| == |table| + (if r.1 then 1 else 0)
    ensures r.1 ==> r.0[|table|] == t
  {
    if |table| >= MaxTransitions then (table, false) else (table + [t], true)
  }

  /** Registering `ts` one after another: the final table and how many registrations succeeded. */
  function RegisterAll(table: seq<Transition>, ts: seq<Transition>): (seq<Transition>, nat)
    decreases |ts|
  {
    if ts == [] then (table, 0)
    else
      var (next, ok) := Register(table, ts[0]);
      var (last, n) := RegisterAll(next, ts[1..]);
      (last, n + if ok then 1 else 0)
  }

  /**
    Registrations succeed exactly while there is room: from a table of `|table|`
    entries, the first `MaxTransitions - |table|` of `ts` are appended in order
    and every later one is refused.
   */
  lemma {:induction false} RegisterAllFillsToCapacity(table: seq<Transition>, ts: seq<Transition>)
    requires |table| <= MaxTransitions
    ensures RegisterAll(table, ts).1 == Min(|ts|, MaxTransitions - |table|)
    ensures RegisterAll(table, ts).0 == table + ts[..Min(|ts|, MaxTransitions - |table|)]
    decreases |ts|
  {
    if ts != [] {
      var (next, ok) := Register(table, ts[0]);
      RegisterAllFillsToCapacity(next, ts[1..]);
      if ok {
        assert table + ts[..Min(|ts|, MaxTransitions - |table|)]
            == next + ts[1..][..Min(|ts| - 1, MaxTransitions - |next|)];
      }
    }
  }

  /** After an init or reset at most 32 registrations succeed, and they are the first 32. */
  lemma RegisterFromEmpty(ts: seq<Transition>)
    ensures RegisterAll([], ts).1 == Min(|ts|, MaxTransitions)
    ensures RegisterAll([], ts).0 == ts[..Min(|ts|, MaxTransitions)]
  {
    RegisterAllFillsToCapacity([], ts);
  }

  // ----------------------------------------------------------------- queue

  /** fsm_push_event: append at the tail, or drop the event when the queue is full. */
  function Push(queue: seq<Event>, e: Event): (q: seq<Event>)
  {
    if |queue| >= MaxEvents then queue else queue + [e]
  }

  /**
    Pushing `es` one after another: the pending events stay in front, and the
    queue grows by one per event until it is full.
   */
  function PushAll(queue: seq<Event>, es: seq<Event>): (q: seq<Event>)
    decreases |es|
  {
    if es == [] then queue else PushAll(Push(queue, es[0]), es[1..])
  }

  /**
    Pushes are lossy and FIFO: the events that fit are appended in order after
    the pending ones, and every event after the queue fills up is discarded.
   */
  lemma {:induction false} PushAllAppends(queue: seq<Event>, es: seq<Event>)
    requires |queue| <= MaxEvents
    ensures PushAll(queue, es) == queue + es[..Min(|es|, MaxEvents - |queue|)]
    decreases |es|
  {
    if es != [] {
      var next := Push(queue, es[0]);
      PushAllAppends(next, es[1..]);
      if |queue| < MaxEvents {
        assert queue + es[..Min(|es|, MaxEvents - |queue|)]
            == next + es[1..][..Min(|es| - 1, MaxEvents - |next|)];
      }
    }
  }

  /**
    Pushing MAX_EVENTS + 1 events onto an empty queue accepts the first
    MAX_EVENTS of them, in push order, and discards the last one.
   */
  lemma OverflowKeepsFirst(es: seq<Event>)
    requires |es| == MaxEvents + 1
    ensures PushAll([], es) == es[..MaxEvents]
  {
    PushAllAppends([], es);
  }

  // -------------------------------------------------------------- dispatch

  /** What running a transition's action does to the queue; a NULL action does nothing. */
  function RunAction(queue: seq<Event>, action: Option<Action>): (q: seq<Event>)
  {
    match action
    case None => queue
    case Some(a) => PushAll(queue, a.events)
  }

  /** Pushes never disturb the events already pending. */
  lemma {:induction false} PushAllKeepsPending(queue: seq<Event>, es: seq<Event>)
    ensures queue <= PushAll(queue, es)
    decreases |es|
  {
    if es != [] {
      PushAllKeepsPending(Push(queue, es[0]), es[1..]);
    }
  }

  /**
    fsm_dispatch_event: with no matching entry nothing changes and the result
    is false; otherwise the first match's action runs and then its target
    becomes the current state, and the result is true.
   */
  function Dispatch(table: seq<Transition>, m: Machine, e: Event): (r: (Machine, bool))
    ensures !r.1 ==> r.0 == m
  {
    match FirstMatch(table, m.state, e)
    case None => (m, false)
    case Some(i) => (Machine(table[i].nextState, RunAction(m.queue, table[i].action)), true)
  }

  /** Dispatch only appends: the pending events are a prefix of the new queue. */
  lemma DispatchKeepsPending(table: seq<Transition>, m: Machine, e: Event)
    ensures m.queue <= Dispatch(table, m, e).0.queue
  {
    match FirstMatch(table, m.state, e)
    case None =>
    case Some(i) =>
      if table[i].action.Some? {
        PushAllKeepsPending(m.queue, table[i].action.value.events);
      }
  }

  /** Any entry that matches with no match before it is the one lookup returns. */
  lemma FirstMatchIsLowest(table: seq<Transition>, s: State, e: Event, i: nat)
    requires i < |table| && Matches(table[i], s, e)
    requires forall j :: 0 <= j < i ==> !Matches(table[j], s, e)
    ensures FirstMatch(table, s, e) == Some(i)
  {
    FirstMatchIsFirst(table, s, e);
  }

  /** Dispatch reports a match exactly when some registered entry matches `(state, e)`. */
  lemma DispatchMatchedIff(table: seq<Transition>, m: Machine, e: Event)
    ensures Dispatch(table, m, e).1 <==> exists i :: 0 <= i < |table| && Matches(table[i], m.state, e)
    ensures !Dispatch(table, m, e).1 ==> Dispatch(table, m, e).0 == m
  {
    FirstMatchIsFirst(table, m.state, e);
  }

  /** The lowest matching entry decides the target, whatever later entries say. */
  lemma DispatchUsesFirstRegistered(table: seq<Transition>, m: Machine, e: Event, i: nat)
    requires i < |table| && Matches(table[i], m.state, e)
    requires forall j :: 0 <= j < i ==> !Matches(table[j], m.state, e)
    ensures Dispatch(table, m, e) == (Machine(table[i].nextState, RunAction(m.queue, table[i].action)), true)
  {
    FirstMatchIsLowest(table, m.state, e, i);
  }

  /** Registering a duplicate for an already matched `(state, event)` pair is shadowed: dispatch is unchanged. */
  lemma ShadowedRegistration(table: seq<Transition>, t: Transition, m: Machine, e: Event)
    requires FirstMatch(table, m.state, e).Some?
    ensures Dispatch(table + [t], m, e) == Dispatch(table, m, e)
  {
    FirstMatchAppend(table, t, m.state, e);
    var i := FirstMatch(table, m.state, e).value;
    assert (table + [t])[i] == table[i];
  }

  // ----------------------------------------------------------------- drain

  /**
    fsm_process_events, run for at most `fuel` iterations: pop the head, then
    dispatch it; events pushed by an action join the tail of the same queue
    and are dispatched by the same call.
   */
  function Drain(table: seq<Transition>, m: Machine, fuel: nat): (r: Drained)
    ensures |r.dispatched| <= fuel
    decreases fuel, 1
  {
    if fuel == 0 || m.queue == [] then Drained(m, []) else DrainNext(table, m, fuel)
  }

  /** One iteration of the drain and the rest of it: pop the head, dispatch it, go on from there. */
  function DrainNext(table: seq<Transition>, m: Machine, fuel: nat): (r: Drained)
    requires fuel > 0 && m.queue != []
    ensures 0 < |r.dispatched| <= fuel
    decreases fuel, 0
  {
    var rest := Drain(table, Dispatch(table, Machine(m.state, m.queue[1..]), m.queue[0]).0, fuel - 1);
    Drained(rest.machine, [m.queue[0]] + rest.dispatched)
  }

  /**
    One iteration of the drain: pop the head, dispatch it, continue with what
    that leaves. The drain from there ends in the same machine, and the head
    is the next event of the trace after those already dispatched (`done`).
   */
  lemma DrainAdvance(table: seq<Transition>, m: Machine, next: Machine, fuel: nat, done: seq<Event>)
    requires 0 < fuel && m.queue != []
    requires next == Dispatch(table, Machine(m.state, m.queue[1..]), m.queue[0]).0
    ensures Drain(table, m, fuel).machine == Drain(table, next, fuel - 1).machine
    ensures (done + [m.queue[0]]) + Drain(table, next, fuel - 1).dispatched == done + Drain(table, m, fuel).dispatched
  {
    var rest := Drain(table, next, fuel - 1).dispatched;
    assert Drain(table, m, fuel).dispatched == [m.queue[0]] + rest;
    assert (done + [m.queue[0]]) + rest == done + ([m.queue[0]] + rest);
  }

  /** The drain stops at once when nothing is pending or no iteration is left. */
  lemma DrainStops(table: seq<Transition>, m: Machine, fuel: nat)
    requires fuel == 0 || m.queue == []
    ensures Drain(table, m, fuel) == Drained(m, [])
  {
  }

  /**
    The drain dispatches one event per iteration and stops early only on an
    empty queue: either the queue is empty at the end, or every one of the
    `fuel` iterations was used.
   */
  lemma {:induction false} DrainEndsEmptyOrSpent(table: seq<Transition>, m: Machine, fuel: nat)
    ensures Drain(table, m, fuel).dispatched == [] <==> fuel == 0 || m.queue == []
    ensures Drain(table, m, fuel).machine.queue == [] || |Drain(table, m, fuel).dispatched| == fuel
    decreases fuel
  {
    if fuel > 0 && m.queue != [] {
      DrainEndsEmptyOrSpent(table, Dispatch(table, Machine(m.state, m.queue[1..]), m.queue[0]).0, fuel - 1);
    }
  }

  /** No action in the table pushes an event. */
  predicate PushFree(table: seq<Transition>)
  {
    forall i :: 0 <= i < |table| ==> table[i].action.None? || table[i].action.value.events == []
  }

  /** The state reached by dispatching `es` in order, starting from `s`. */
  function Replay(table: seq<Transition>, s: State, es: seq<Event>): State
    decreases |es|
  {
    if es == [] then s else Replay(table, Dispatch(table, Machine(s, []), es[0]).0.state, es[1..])
  }

  /**
    FIFO: whatever is pending when the drain starts is dispatched first, in
    queue order, before anything an action pushes.
   */
  lemma {:induction false} DrainFifo(table: seq<Transition>, m: Machine, fuel: nat, p: seq<Event>)
    requires p <= m.queue && |p| <= fuel
    ensures p <= Drain(table, m, fuel).dispatched
    decreases fuel
  {
    if p != [] {
      var next := Dispatch(table, Machine(m.state, m.queue[1..]), m.queue[0]).0;
      DispatchKeepsPending(table, Machine(m.state, m.queue[1..]), m.queue[0]);
      DrainFifo(table, next, fuel - 1, p[1..]);
      assert p == [m.queue[0]] + p[1..];
    }
  }

  /**
    With no action pushing, a drain given one iteration per pending event
    empties the queue, dispatches every pending event exactly once in FIFO
    order, and ends in the state that dispatching them in turn reaches.
   */
  lemma {:induction false} DrainPushFree(table: seq<Transition>, m: Machine, fuel: nat)
    requires PushFree(table) && |m.queue| <= fuel
    ensures Drain(table, m, fuel) == Drained(Machine(Replay(table, m.state, m.queue), []), m.queue)
    decreases fuel
  {
    if m.queue != [] {
      var next := Dispatch(table, Machine(m.state, m.queue[1..]), m.queue[0]).0;
      assert next.queue == m.queue[1..];
      assert next.state == Dispatch(table, Machine(m.state, []), m.queue[0]).0.state;
      DrainPushFree(table, next, fuel - 1);
    }
  }

  /**
    An event pushed by an action is dispatched by the same drain: whatever
    dispatching the head appends to the queue is dispatched right after the
    events that were pending, provided the drain runs long enough.
   */
  lemma SameCallDrain(table: seq<Transition>, m: Machine, fuel: nat, pushed: seq<Event>)
    requires m.queue != []
    requires Dispatch(table, Machine(m.state, m.queue[1..]), m.queue[0]).0.queue == m.queue[1..] + pushed
    requires |m.queue| + |pushed| <= fuel
    ensures m.queue + pushed <= Drain(table, m, fuel).dispatched
  {
    var next := Dispatch(table, Machine(m.state, m.queue[1..]), m.queue[0]).0;
    DrainFifo(table, next, fuel - 1, next.queue);
    DrainAdvance(table, m, next, fuel, []);
    ConsPrefix(m.queue, pushed, Drain(table, next, fuel - 1).dispatched);
  }

  /**
    The events a matched action pushes while the head is dispatched are
    themselves dispatched by the same drain, right after the events that were
    pending, when they fit in the queue and the drain runs long enough.
   */
  lemma ActionPushesDrainedSameCall(table: seq<Transition>, m: Machine, fuel: nat, i: nat, a: Action)
    requires m.queue != []
    requires FirstMatch(table, m.state, m.queue[0]) == Some(i) && table[i].action == Some(a)
    requires |m.queue| - 1 + |a.events| <= MaxEvents
    requires |m.queue| + |a.events| <= fuel
    ensures m.queue + a.events <= Drain(table, m, fuel).dispatched
  {
    DispatchAppendsPushes(table, Machine(m.state, m.queue[1..]), m.queue[0], i, a);
    SameCallDrain(table, m, fuel, a.events);
  }

  lemma ConsPrefix(q: seq<Event>, extra: seq<Event>, d: seq<Event>)
    requires q != [] && q[1..] + extra <= d
    ensures q + extra <= [q[0]] + d
  {
    assert q + extra == [q[0]] + (q[1..] + extra);
  }

  /** A matched action whose pushes all fit appends exactly those events to the queue. */
  lemma DispatchAppendsPushes(table: seq<Transition>, m: Machine, e: Event, i: nat, a: Action)
    requires FirstMatch(table, m.state, e) == Some(i)
    requires table[i].action == Some(a)
    requires |m.queue| + |a.events| <= MaxEvents
    ensures Dispatch(table, m, e).0.queue == m.queue + a.events
  {
    PushAllAppends(m.queue, a.events);
    assert a.events[..Min(|a.events|, MaxEvents - |m.queue|)] == a.events;
  }

  /**
    Pushing MAX_EVENTS + 1 events onto an empty queue and draining with a
    push-free table dispatches exactly the first MAX_EVENTS, in push order,
    and leaves the queue empty.
   */
  lemma OverflowThenDrain(table: seq<Transition>, s: State, es: seq<Event>)
    requires |es| == MaxEvents + 1 && PushFree(table)
    ensures Drain(table, Machine(s, PushAll([], es)), MaxEvents)
         == Drained(Machine(Replay(table, s, es[..MaxEvents]), []), es[..MaxEvents])
  {
    OverflowKeepsFirst(es);
    DrainPushFree(table, Machine(s, es[..MaxEvents]), MaxEvents);
  }
}
