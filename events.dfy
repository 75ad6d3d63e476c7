/**
 The decoded records of the orchestrator's event stream, reduced to the
 fields the main loop of app.rb reads.
 */
module Events {
  import opened Options

  /** A task event: its `Type`, `Time` (nanoseconds), `DisplayMessage` and `Details`. */
  datatype TaskEvent = TaskEvent(eventType: string, time: int, displayMessage: string, details: map<string, string>)

  /** A task state: its `Events`, in the order received. */
  datatype TaskState = TaskState(events: seq<TaskEvent>)

  /** One `task_id => task_state` pair of an allocation's `TaskStates`, in the object's order. */
  datatype TaskEntry = TaskEntry(taskId: string, state: TaskState)

  /** `Payload.Allocation`: its `JobID` and, when the payload has them, its `TaskStates`. */
  datatype Allocation = Allocation(jobId: string, taskStates: Option<seq<TaskEntry>>)

  /** An event envelope: its `Topic` and the allocation of its payload. */
  datatype Event = Event(topic: string, allocation: Allocation)

  /** A decoded record: the empty object (a heartbeat), or an object with `Index` and `Events`. */
  datatype Record = Heartbeat | Envelope(index: int, events: seq<Event>)

  /** What a webhook post is made from: a task key and the event's fields. */
  datatype Notification =
    Notification(taskIdentifier: string, eventType: string, displayMessage: string, time: int, details: map<string, string>)
}
