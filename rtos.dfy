/**
  The one property of a FreeRTOS queue handle (`QueueHandle_t`) that the
  modelled code looks at: whether it is NULL. The queues themselves (their
  capacity, blocking timeouts and the tasks on either side) are not modelled.
 */
module Rtos {

  /** `Null` before the owning task has created its queue, or when creation failed. */
  datatype QueueHandle = Null | Created
}
