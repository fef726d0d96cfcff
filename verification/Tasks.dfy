/** The units of work that the scheduler queue, the event slots and the timers hand around. */
module Tasks {
  import opened Prelude

  /** What a queued std::function does: user code, the wake-up a sleep timer
      carries, or the deadline check a hooked I/O call leaves in a timer. */
  datatype Closure =
    | User(id: nat)
    | Wake(fiber: nat)
    | Timeout(call: nat)

  /** A FiberTask: a fiber or a callback, pinned to a thread or free to run anywhere. */
  datatype Task = Task(fiber: Option<nat>, cb: Option<Closure>, thread: Option<nat>) {
    predicate NonEmpty() { fiber.Some? || cb.Some? }
  }

  /** scheduleNonLock: a task with neither a fiber nor a callback is dropped. */
  function Enqueue(queue: seq<Task>, t: Task): seq<Task> {
    if t.NonEmpty() then queue + [t] else queue
  }

  /** The weight that counts the occurrences of one task. */
  function Is(x: Task): Task -> nat {
    t => if t == x then 1 else 0
  }
}
