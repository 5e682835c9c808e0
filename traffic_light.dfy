/**
  The traffic-light controller of esp32/traffic_light.cpp: the per-command
  body of its task loop, `light()`, the durations array, the senders and the
  readiness test. The six lamp outputs are a `bool` array (true is HIGH); a
  `digitalWrite` is an update of that array.
 */
module TrafficLight {
  import opened Wrappers
  import opened Rtos
  import PinConfig

  /** uint32_t */
  type Uint32 = x: int | 0 <= x < 0x1_0000_0000

  /** TRAFFIC_LIGHT_1 = 0, TRAFFIC_LIGHT_2 = 1 */
  datatype LightId = Light1 | Light2

  /** RED = 0, YELLOW = 1, GREEN = 2 */
  datatype Color = Red | Yellow | Green

  /** A traffic_light_command_t, carrying only the fields its type uses. */
  datatype Command =
    | ChangeColor(id: LightId, color: Color)
    | SetDuration(id: LightId, durationMs: Uint32)
    | TurnOffAll

  /** Number of lamp outputs: pins 21, 22, 23 (light 1) and 25, 26, 27 (light 2). */
  const LampCount := 6

  /** The position of a lamp in the output array: red, yellow, green of light 1, then of light 2. */
  function LampIndex(id: LightId, color: Color): (i: nat)
    ensures i < LampCount
    ensures (i < 3) <==> id == Light1
  {
    (match id case Light1 => 0 case Light2 => 3)
    + (match color case Red => 0 case Yellow => 1 case Green => 2)
  }

  /** The six lamps drive six different outputs, as their six distinct pin numbers do. */
  lemma LampIndexInjective(id1: LightId, c1: Color, id2: LightId, c2: Color)
    ensures LampIndex(id1, c1) == LampIndex(id2, c2) ==> id1 == id2 && c1 == c2
  {
  }

  /** The position of a light's entry in traffic_light_durations. */
  function DurationIndex(id: LightId): nat
  {
    match id case Light1 => 0 case Light2 => 1
  }

  function Other(id: LightId): LightId
  {
    match id case Light1 => Light2 case Light2 => Light1
  }

  class Controller {
    /** The six lamp outputs, HIGH = true. */
    const pins: array<bool>
    /** traffic_light_durations */
    const durations: array<Uint32>
    /** traffic_light_queue */
    var queue: QueueHandle

    /** The shape of the arrays, and no light ever shows two lamps at once. */
    ghost predicate Valid()
      reads this, pins
    {
      && pins.Length == LampCount
      && durations.Length == 2
      && forall id, c1, c2 :: pins[LampIndex(id, c1)] && pins[LampIndex(id, c2)] ==> c1 == c2
    }

    /** The static initialisation: no queue yet, both durations at the minimum green time, all lamps LOW. */
    constructor ()
      ensures Valid() && fresh(pins) && fresh(durations)
      ensures queue == Null
      ensures durations[..] == [PinConfig.MinGreenDurationMs, PinConfig.MinGreenDurationMs]
      ensures forall i :: 0 <= i < LampCount ==> !pins[i]
    {
      pins := new bool[LampCount](_ => false);
      durations := new Uint32[2](_ => PinConfig.MinGreenDurationMs);
      queue := Null;
    }

    /**
      The start of traffic_light_task: create the queue (`created` says whether
      that succeeded) and, when it did, drive all six lamps LOW. When it did not,
      the task deletes itself and nothing else happens.
     */
    method TaskStart(created: bool)
      requires Valid()
      modifies this`queue, pins
      ensures Valid()
      ensures queue == (if created then Created else Null)
      ensures created ==> forall i :: 0 <= i < LampCount ==> !pins[i]
      ensures !created ==> pins[..] == old(pins[..])
    {
      if !created {
        queue := Null;
        return;
      }
      queue := Created;
      pins[LampIndex(Light1, Red)] := false;
      pins[LampIndex(Light1, Yellow)] := false;
      pins[LampIndex(Light1, Green)] := false;
      pins[LampIndex(Light2, Red)] := false;
      pins[LampIndex(Light2, Yellow)] := false;
      pins[LampIndex(Light2, Green)] := false;
    }

    /** light(): the chosen lamp of light `id` HIGH, its other two LOW, the other light untouched. */
    method Light(id: LightId, color: Color)
      requires Valid()
      modifies pins
      ensures Valid()
      ensures forall c :: pins[LampIndex(id, c)] == (c == color)
      ensures forall c :: pins[LampIndex(Other(id), c)] == old(pins[LampIndex(Other(id), c)])
    {
      var red, yellow, green := LampIndex(id, Red), LampIndex(id, Yellow), LampIndex(id, Green);
      match color
      case Red =>
        pins[red] := true;
        pins[yellow] := false;
        pins[green] := false;
      case Yellow =>
        pins[red] := false;
        pins[yellow] := true;
        pins[green] := false;
      case Green =>
        pins[red] := false;
        pins[yellow] := false;
        pins[green] := true;
    }

    /** The switch in the task loop: carry out one received command. */
    method HandleCommand(command: Command)
      requires Valid()
      modifies pins, durations
      ensures Valid()
      ensures command.ChangeColor? ==>
        && (forall c :: pins[LampIndex(command.id, c)] == (c == command.color))
        && (forall c :: pins[LampIndex(Other(command.id), c)] == old(pins[LampIndex(Other(command.id), c)]))
        && durations[..] == old(durations[..])
      ensures command.SetDuration? ==>
        && durations[DurationIndex(command.id)] == command.durationMs
        && durations[DurationIndex(Other(command.id))] == old(durations[DurationIndex(Other(command.id))])
        && pins[..] == old(pins[..])
      ensures command.TurnOffAll? ==>
        && (forall i :: 0 <= i < LampCount ==> !pins[i])
        && durations[..] == old(durations[..])
    {
      match command
      case ChangeColor(id, color) =>
        Light(id, color);
      case SetDuration(id, durationMs) =>
        if id == Light1 {
          durations[DurationIndex(Light1)] := durationMs;
        } else if id == Light2 {
          durations[DurationIndex(Light2)] := durationMs;
        }
      case TurnOffAll =>
        pins[LampIndex(Light1, Red)] := false;
        pins[LampIndex(Light1, Yellow)] := false;
        pins[LampIndex(Light1, Green)] := false;
        pins[LampIndex(Light2, Red)] := false;
        pins[LampIndex(Light2, Yellow)] := false;
        pins[LampIndex(Light2, Green)] := false;
    }

    /** traffic_light_is_ready: whether the task has created its queue. */
    function IsReady(): (ready: bool)
      reads this
      ensures ready <==> queue != Null
    {
      queue != Null
    }

    /** traffic_light_set: the command it enqueues, or nothing when the queue handle is NULL. */
    function SendSet(id: LightId, color: Color): (sent: Option<Command>)
      reads this
      ensures sent.Some? <==> IsReady()
      ensures sent.Some? ==> sent.value.ChangeColor? && sent.value.id == id && sent.value.color == color
    {
      if queue != Null then Some(ChangeColor(id, color)) else None
    }

    /** traffic_light_set_duration: the command it enqueues, or nothing when the queue handle is NULL. */
    function SendSetDuration(id: LightId, durationMs: Uint32): (sent: Option<Command>)
      reads this
      ensures sent.Some? <==> IsReady()
      ensures sent.Some? ==> sent.value.SetDuration? && sent.value.id == id && sent.value.durationMs == durationMs
    {
      if queue != Null then Some(SetDuration(id, durationMs)) else None
    }

    /** traffic_light_turn_off_all: the command it enqueues, or nothing when the queue handle is NULL. */
    function SendTurnOffAll(): (sent: Option<Command>)
      reads this
      ensures sent.Some? <==> IsReady()
      ensures sent.Some? ==> sent.value.TurnOffAll?
    {
      if queue != Null then Some(TurnOffAll) else None
    }
  }
}
