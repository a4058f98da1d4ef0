/** Delayed tasks as the FFRT queue keeps them: submit, cancel by handle, fire. */
module Tasks {
  import opened Common

  /** The pending tasks of one queue, the handle of the latest one, and the next unused identity. */
  datatype Queue = Queue(pending: set<nat>, handle: Option<nat>, next: nat)

  const NO_TASKS := Queue({}, None, 0)

  function Submitted(q: Queue): Queue {
    Queue(q.pending + {q.next}, Some(q.next), q.next + 1)
  }

  /** Cancelling succeeds for a pending task, and then forgets the handle. */
  function Cancelled(q: Queue): Queue {
    if q.handle.Some? && q.handle.value in q.pending then Queue(q.pending - {q.handle.value}, None, q.next) else q
  }

  function Fired(q: Queue, task: nat): Queue {
    q.(pending := q.pending - {task})
  }

  /** The one pending task is the one the handle names. */
  ghost predicate Single(q: Queue) {
    q.handle.Some? && q.pending == {q.handle.value} && q.handle.value < q.next
  }
}
