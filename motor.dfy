/**
  The motor controller of esp32/motor.cpp: the per-command body of its task
  loop, which drives the two H-bridge inputs, the senders and the readiness
  test. The two outputs are a `bool` array (true is HIGH): index 0 is
  MOTOR_PIN_1 (pin 18), index 1 is MOTOR_PIN_2 (pin 19).
 */
module Motor {
  import opened Wrappers
  import opened Rtos

  /** motor_command_t */
  datatype MotorCommand = MotorLeft | MotorRight | MotorStop

  class Controller {
    /** The two H-bridge inputs, HIGH = true. */
    const pins: array<bool>
    /** motor_queue */
    var queue: QueueHandle

    /** Two outputs, never both HIGH (that would short the bridge). */
    ghost predicate Valid()
      reads this, pins
    {
      pins.Length == 2 && !(pins[0] && pins[1])
    }

    /** The static initialisation: no queue yet, both outputs LOW. */
    constructor ()
      ensures Valid() && fresh(pins)
      ensures queue == Null && !pins[0] && !pins[1]
    {
      pins := new bool[2](_ => false);
      queue := Null;
    }

    /**
      The start of motor_task: create the queue (`created` says whether that
      succeeded) and, when it did, drive both outputs LOW; otherwise the task
      ends there.
     */
    method TaskStart(created: bool)
      requires Valid()
      modifies this`queue, pins
      ensures Valid()
      ensures queue == (if created then Created else Null)
      ensures created ==> !pins[0] && !pins[1]
      ensures !created ==> pins[..] == old(pins[..])
    {
      if !created {
        queue := Null;
        return;
      }
      queue := Created;
      pins[0] := false;
      pins[1] := false;
    }

    /**
      The switch in the task loop: pin 1 is HIGH exactly for a left turn,
      pin 2 exactly for a right turn, and a stop drives both LOW.
     */
    method HandleCommand(command: MotorCommand)
      requires Valid()
      modifies pins
      ensures Valid()
      ensures pins[0] <==> command == MotorLeft
      ensures pins[1] <==> command == MotorRight
    {
      match command
      case MotorLeft =>
        pins[0] := true;
        pins[1] := false;
      case MotorRight =>
        pins[0] := false;
        pins[1] := true;
      case MotorStop =>
        pins[0] := false;
        pins[1] := false;
    }

    /** motor_is_ready: whether the task has created its queue. */
    function IsReady(): (ready: bool)
      reads this
      ensures ready <==> queue != Null
    {
      queue != Null
    }

    /** motor_turn_left: the command it enqueues, or nothing when the queue handle is NULL. */
    function SendTurnLeft(): (sent: Option<MotorCommand>)
      reads this
      ensures sent.Some? <==> IsReady()
      ensures sent.Some? ==> sent.value == MotorLeft
    {
      if queue == Null then None else Some(MotorLeft)
    }

    /** motor_turn_right: the command it enqueues, or nothing when the queue handle is NULL. */
    function SendTurnRight(): (sent: Option<MotorCommand>)
      reads this
      ensures sent.Some? <==> IsReady()
      ensures sent.Some? ==> sent.value == MotorRight
    {
      if queue == Null then None else Some(MotorRight)
    }

    /** motor_stop: the command it enqueues, or nothing when the queue handle is NULL. */
    function SendStop(): (sent: Option<MotorCommand>)
      reads this
      ensures sent.Some? <==> IsReady()
      ensures sent.Some? ==> sent.value == MotorStop
    {
      if queue == Null then None else Some(MotorStop)
    }
  }
}
