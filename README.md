# Smart road system: ESP32 controller core in Dafny

This project models the controller firmware of the smart road system. The
firmware runs on an ESP32 and drives two traffic lights and a motor. The
model covers four parts of it.

- **Generic event-driven state machine** (`esp32/fsm.h`, `esp32/fsm.cpp`).
  - A fixed table of up to 32 transitions `(from, to, event, action)`, filled in registration order. A full table refuses new entries.
  - A circular queue of up to 16 pending events. A push onto a full queue drops the event.
  - A dispatcher that uses the first matching table entry. It runs that entry's action, then moves to the entry's target state.
  - A processing loop that pops and dispatches events until the queue is empty.
- **Green-time formula** `TOTAL_GREEN_TIME_MS(car count)` and its constants (`esp32/pin_config.h`).
- **Traffic-light command interpreter** (`esp32/traffic_light.cpp`). It turns `CHANGE_COLOR`, `SET_DURATION` and `TURN_OFF_ALL` commands into the levels of six lamp outputs and a two-entry durations array. It also has the senders, which do nothing while the task's queue handle is NULL.
- **Motor command interpreter** (`esp32/motor.cpp`). It turns left/right/stop commands into the levels of the two H-bridge inputs. It has the same NULL-guarded senders.

Layout:

| file | module | contents |
|---|---|---|
| `wrappers.dfy` | `Wrappers` | `Option` (a pointer that may be NULL), `Min`, `Max` |
| `rtos.dfy` | `Rtos` | a FreeRTOS queue handle, reduced to NULL / created |
| `fsm_types.dfy` | `FsmTypes` | the declarations of `fsm.h` |
| `fsm_spec.dfy` | `FsmSpec` | the state machine as functions on values, with the lemmas about it |
| `fsm.dfy` | `Fsm` | class `Engine`: the globals of `fsm.cpp`, with the table and the queue as arrays; every method is proved against `FsmSpec` |
| `pin_config.dfy` | `PinConfig` | the timing constants and the green-time formula |
| `traffic_light.dfy` | `TrafficLight` | class `Controller`: the lamp outputs and durations array, updated in place |
| `motor.dfy` | `Motor` | class `Controller`: the two H-bridge outputs |

`Engine.Valid()` is the invariant that every engine method keeps. It says:
- `0 <= transitionCount <= 32`;
- `0 <= queueHead < 16` and `0 <= queueSize <= 16`;
- `queueTail == (queueHead + queueSize) % 16`.

`Table()` reads the live table entries in registration order. `View()` reads
the current state and the pending events, oldest first. The `Engine` methods
are proved to change these exactly as the `FsmSpec` functions say.

Two behaviours of the code are worth pointing out.
- **Events pushed by an action.** The loop in `fsm_process_events` (esp32/fsm.cpp:66) tests `queueSize` again after each dispatch. So events an action pushes are dispatched by the same call (`FsmSpec.SameCallDrain`, `FsmSpec.ActionPushesDrainedSameCall`).
- **Green time below the threshold.** The macro at esp32/pin_config.h:30 has no lower clamp (see Findings).

## Model

| member | source | states |
|---|---|---|
| Fsm.Engine.constructor | esp32/fsm.cpp:3-14 | Static initialisation: state IDLE, an empty table and an empty queue, with the invariant established |
| Fsm.Engine.Init | esp32/fsm.cpp:28-34 | fsm_init: the state is the argument, the table and the queue are empty, and head and tail are 0 |
| Fsm.Engine.Reset | esp32/fsm.cpp:122-133 | fsm_reset has exactly the effect of fsm_init |
| Fsm.Engine.RegisterTransition | esp32/fsm.cpp:37-50 | Succeeds exactly when the count is below 32. On success the entry is written at the old count and the live table grows by exactly that entry. On failure the count and the whole array are unchanged. The queue and the state never change |
| Fsm.Engine.PushEvent | esp32/fsm.cpp:53-62 | A full queue leaves every field and the buffer unchanged. Otherwise the event is stored at the old tail, the tail advances modulo 16 and the size grows by one. The pending events become the old ones plus the new event |
| Fsm.Engine.FindTransition | esp32/fsm.cpp:17-25 | A returned index is live and matches, and no lower index matches. Nothing is returned exactly when no live entry matches. The result equals the value-level lookup `FirstMatch` |
| Fsm.Engine.DispatchEvent | esp32/fsm.cpp:81-107 | State, queue and result are those of `Dispatch`: with no match nothing changes and the result is false; otherwise the action's pushes are applied, then the state becomes the first match's target, and the result is true. The table never changes |
| Fsm.Engine.RunAction | esp32/fsm.cpp:99-101 | Running an action pushes its events one by one: the queue becomes `PushAll` of the old queue and the events, and the state is unchanged |
| Fsm.Engine.ProcessEvents | esp32/fsm.cpp:65-78 | The loop ends in exactly the machine `Drain` computes from the starting state and queue, the events it dispatches, in order, are exactly `Drain`'s dispatched sequence, and the table is unchanged |
| Fsm.Engine.ProcessOne | esp32/fsm.cpp:66-77 | One loop iteration dispatches the oldest pending event and uses one iteration of the bound: the new machine is exactly `Dispatch` of that event applied to the rest of the queue, the machine the drain ends in is unchanged, and that event joins the dispatched trace in front of everything the rest of the drain dispatches |
| Fsm.Engine.ProcessHead | esp32/fsm.cpp:67-71 | Popping the head and dispatching it gives exactly `Dispatch` of the oldest event, applied to the current state with the rest of the queue |
| Fsm.Engine.PopHead | esp32/fsm.cpp:67-69 | The popped event is the oldest pending one, and the pending events become the rest of the queue |
| Fsm.Engine.GetCurrentState | esp32/fsm.cpp:110-112 | Returns the current state and changes nothing |
| Fsm.Engine.SetCurrentState | esp32/fsm.cpp:115-119 | Only the state changes: the table and the pending events stay as they were |
| Fsm.QueueViewPush | esp32/fsm.cpp:59-61 | Writing at `(head + size) % 16` and growing the size appends exactly that event to the pending sequence |
| Fsm.QueueViewPop | esp32/fsm.cpp:67-69 | The head slot holds the oldest event, and advancing the head modulo 16 drops exactly that event |
| FsmSpec.Register | esp32/fsm.cpp:37-50 | Registration succeeds exactly when fewer than 32 entries are live. On success the new entry is appended after the old ones, which stay in place. On failure the table is unchanged |
| FsmSpec.FirstMatch | esp32/fsm.cpp:17-25 | A found index is in range and its entry matches `(state, event)` |
| FsmSpec.FirstMatchIsFirst | esp32/fsm.cpp:17-25 | No entry below the found index matches, and nothing is found exactly when no entry matches (both directions) |
| FsmSpec.FirstMatchIsLowest | esp32/fsm.cpp:17-25 | Any matching entry with no match before it is the one lookup returns |
| FsmSpec.FirstMatchAppend | esp32/fsm.cpp:17-25 | Appending an entry keeps any existing lookup result. It fills a missing result exactly when the new entry matches |
| FsmSpec.ShadowedRegistration | esp32/fsm.cpp:17-25 | A later entry for an already matched `(state, event)` pair is never used: dispatch is unchanged |
| FsmSpec.RegisterAllFillsToCapacity | esp32/fsm.cpp:37-50 | Registering a sequence succeeds exactly `min(n, 32 - count)` times, and appends exactly those first entries in order |
| FsmSpec.RegisterFromEmpty | esp32/fsm.h:8 | After init or reset at most 32 registrations succeed, and they are the first 32 |
| FsmSpec.Push | esp32/fsm.cpp:53-62 | Definition of one push: append the event when fewer than 16 are pending, otherwise drop it. `PushAllAppends` and `PushAllKeepsPending` state its effect |
| FsmSpec.PushAll | esp32/fsm.cpp:53-62 | Definition of a run of pushes, one event at a time. `PushAllAppends` gives the exact resulting queue and `PushAllKeepsPending` the preserved prefix |
| FsmSpec.PushAllAppends | esp32/fsm.cpp:53-62 | A run of pushes appends the events that fit, in order, and discards every event after the queue is full |
| FsmSpec.PushAllKeepsPending | esp32/fsm.cpp:53-62 | Pushes never disturb the events already pending |
| FsmSpec.OverflowKeepsFirst | esp32/fsm.h:9 | Pushing 17 events onto an empty queue keeps exactly the first 16, in push order |
| FsmSpec.RunAction | esp32/fsm.cpp:99-101 | Definition of running an optional action: no action leaves the queue alone, an action pushes its events in order. `DispatchKeepsPending` and `DispatchAppendsPushes` state its effect inside a dispatch |
| FsmSpec.Dispatch | esp32/fsm.cpp:81-107 | With no match, the machine is returned unchanged. `DispatchMatchedIff`, `DispatchUsesFirstRegistered`, `DispatchKeepsPending` and `DispatchAppendsPushes` state the matched case |
| FsmSpec.DispatchMatchedIff | esp32/fsm.cpp:83-88 | Dispatch reports true exactly when some live entry matches, and with no match the state and queue are unchanged |
| FsmSpec.DispatchUsesFirstRegistered | esp32/fsm.cpp:81-107 | The lowest matching entry decides the target state and the action, whatever later entries say |
| FsmSpec.DispatchKeepsPending | esp32/fsm.cpp:99-101 | Dispatch only appends to the queue: the pending events are a prefix of the new queue |
| FsmSpec.DispatchAppendsPushes | esp32/fsm.cpp:99-101 | When the pushes fit, a matched action appends exactly its events to the queue |
| FsmSpec.Drain | esp32/fsm.cpp:65-78 | The loop as a function of the starting machine and an iteration bound: it dispatches at most one event per iteration |
| FsmSpec.DrainNext | esp32/fsm.cpp:66-77 | With a pending event and an iteration left, at least one event is dispatched and at most one per iteration |
| FsmSpec.DrainEndsEmptyOrSpent | esp32/fsm.cpp:65-78 | Nothing is dispatched exactly when there is no iteration or no pending event, and the drain ends with an empty queue unless it used every iteration |
| FsmSpec.DrainFifo | esp32/fsm.cpp:65-78 | FIFO: the events pending at the start are dispatched first, in queue order, before anything an action pushes |
| FsmSpec.DrainPushFree | esp32/fsm.cpp:65-78 | With no action pushing, the drain dispatches each pending event exactly once in FIFO order, empties the queue, and ends in the state reached by dispatching them in turn |
| FsmSpec.SameCallDrain | esp32/fsm.cpp:66-77 | Whatever dispatching the head appends is dispatched by the same call, right after the events that were pending |
| FsmSpec.ActionPushesDrainedSameCall | esp32/fsm.cpp:66-101 | The events a matched action pushes are dispatched by the same call, after the pending ones |
| FsmSpec.OverflowThenDrain | esp32/fsm.cpp:53-78 | Pushing 17 events from empty, then draining with push-free actions, dispatches exactly the first 16 in push order and empties the queue |
| PinConfig.TotalGreenTimeMs | esp32/pin_config.h:30 | The green time equals MIN_GREEN_DURATION_MS exactly at CAR_COUNT_THRESHOLD cars, and exceeds it exactly above the threshold |
| PinConfig.GreenAtThreshold | esp32/pin_config.h:24-30 | At 9 cars the green time is exactly MIN_GREEN_DURATION_MS (30000 ms) |
| PinConfig.GreenPerCar | esp32/pin_config.h:25-30 | Each further car adds exactly EXTRA_TIME_PER_CAR_MS (3000 ms) |
| PinConfig.GreenStrictlyIncreasing | esp32/pin_config.h:30 | More cars always give a strictly longer green time |
| PinConfig.GreenUncapped | esp32/pin_config.h:30 | There is no upper cap: every bound is exceeded by some car count |
| PinConfig.GreenBelowMinimum | esp32/pin_config.h:30 | No lower clamp: below 9 cars the result is exactly `3000 + 3000 * count`, so under 30000 ms |
| PinConfig.GreenForEmptyRoad | esp32/pin_config.h:30 | An empty road (0 cars) gives 3000 ms |
| PinConfig.ClampedGreenNeverBelowMinimum | esp32/pin_config.h:24-30 | The clamped formula is never below 30000 ms, equals it up to the threshold, and agrees with the macro from the threshold on |
| TrafficLight.LampIndex | esp32/pin_config.h:7-13 | Each lamp has one of six outputs, and the first three belong to light 1 |
| TrafficLight.LampIndexInjective | esp32/pin_config.h:7-13 | Different lamps have different outputs: equal indices mean the same light and the same colour |
| TrafficLight.Controller.constructor | esp32/traffic_light.cpp:26-28 | No queue yet, both durations MIN_GREEN_DURATION_MS, all six lamps LOW |
| TrafficLight.Controller.TaskStart | esp32/traffic_light.cpp:34-55 | If queue creation fails, the handle stays NULL and no output changes. Otherwise all six lamps go LOW |
| TrafficLight.Controller.Light | esp32/traffic_light.cpp:134-180 | Exactly the chosen lamp of the chosen light is HIGH and its other two are LOW. The other light's three lamps are unchanged |
| TrafficLight.Controller.HandleCommand | esp32/traffic_light.cpp:65-89 | CHANGE_COLOR acts as `light()` and keeps the durations. SET_DURATION sets that light's entry, keeps the other entry and all lamps. TURN_OFF_ALL drives all six lamps LOW and keeps the durations. No light ever shows two lamps |
| TrafficLight.Controller.IsReady | esp32/traffic_light.cpp:129-132 | Ready exactly when the queue handle is not NULL |
| TrafficLight.Controller.SendSet | esp32/traffic_light.cpp:95-105 | A CHANGE_COLOR command with the given light and colour is sent exactly when the handle is not NULL |
| TrafficLight.Controller.SendSetDuration | esp32/traffic_light.cpp:107-117 | A SET_DURATION command with the given light and duration is sent exactly when the handle is not NULL |
| TrafficLight.Controller.SendTurnOffAll | esp32/traffic_light.cpp:119-127 | A TURN_OFF_ALL command is sent exactly when the handle is not NULL |
| Motor.Controller.constructor | esp32/motor.cpp:17 | No queue yet, both outputs LOW |
| Motor.Controller.TaskStart | esp32/motor.cpp:21-35 | If queue creation fails, the handle stays NULL and nothing else changes. Otherwise both outputs go LOW |
| Motor.Controller.HandleCommand | esp32/motor.cpp:46-60 | Pin 1 is HIGH exactly for MOTOR_LEFT and pin 2 exactly for MOTOR_RIGHT. MOTOR_STOP drives both LOW, and no command leaves both HIGH |
| Motor.Controller.IsReady | esp32/motor.cpp:93-96 | Ready exactly when the queue handle is not NULL |
| Motor.Controller.SendTurnLeft | esp32/motor.cpp:66-73 | MOTOR_LEFT is sent exactly when the handle is not NULL |
| Motor.Controller.SendTurnRight | esp32/motor.cpp:75-82 | MOTOR_RIGHT is sent exactly when the handle is not NULL |
| Motor.Controller.SendStop | esp32/motor.cpp:84-91 | MOTOR_STOP is sent exactly when the handle is not NULL |

## Left out

- Fsm.Engine.ProcessEvents: takes a bound `fuel` on its iterations. The source loops until the queue is empty, and it never returns if actions keep pushing. `FsmSpec.DrainEndsEmptyOrSpent` shows that the bound is the only reason the model can stop with events pending. `FsmSpec.DrainPushFree` shows that one iteration per pending event is enough when no action pushes.
- Actions (`ActionFunction`, esp32/fsm.h:33) are reduced to the sequence of events they push. Arbitrary callbacks are not modelled. That includes callbacks that re-enter `fsm_reset`, `fsm_register_transition`, `fsm_set_current_state` or `fsm_process_events` during a dispatch. So the model cannot show that a state the action sets is overwritten by the transition's target.
- Serial logging in `fsm.cpp`, `traffic_light.cpp` and `motor.cpp` is not modelled, because it is output only.
- `pinMode` is not modelled. Lamp and motor outputs are `bool` arrays, and each `digitalWrite` is an array update. Before the tasks start, the outputs are taken to be LOW.
- FreeRTOS is not modelled: queue creation (given as the `created` parameter), `xQueueSend`/`xQueueReceive` with their timeouts and queue capacity 10, `vTaskDelay`, `vTaskDelete` and the endless task loops. Only the per-command body of each task loop and the NULL guard of each sender are modelled. A send that fails because the queue is full is not modelled. The traffic-light task has no `return` after `vTaskDelete(NULL)`. Deleting the calling task does not return, so the model does nothing further there.
- The `traffic_light_durations` values are stored but read by nothing in the modelled code, so no timing behaviour follows from them.
- PinConfig.TotalGreenTimeMs is over unbounded integers. The macro has no caller in the modelled code, so the C type its argument would have is unknown. Any fixed-width overflow or unsigned wrap-around at a call site is not modelled.
- The unused pin_config.h constants (pump, status interval, colour durations, speed threshold) appear in no modelled operation.
- esp32/socket_io_manager.cpp is not part of this model. It is network I/O and JSON parsing, and it pushes no state-machine events.
- model.py and server/ are not part of this model. They are vision inference, HTTP and a browser relay, not controller logic.

## Findings

| source | as written | input that shows it | evidently intended | confidence | as-written member | corrected member |
|---|---|---|---|---|---|---|
| esp32/pin_config.h:30 | `MIN_GREEN_DURATION_MS + EXTRA_TIME_PER_CAR_MS * (count - CAR_COUNT_THRESHOLD)` with no clamp | car count 0 would give 3000 ms and car count 8 would give 27000 ms, both below the minimum green time. The macro has no caller in the modelled code, so no firmware path computes these values yet | never below MIN_GREEN_DURATION_MS: extra time only for cars above the threshold, `30000 + 3000 * max(0, count - 9)`. The comment on CAR_COUNT_THRESHOLD (esp32/pin_config.h:26) leaves open whether it was meant as a floor or a cap | medium, not executed | PinConfig.GreenBelowMinimum | PinConfig.ClampedGreenNeverBelowMinimum |
