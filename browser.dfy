/**
 The host environment the page scripts run in, reduced to what they use:
 JavaScript's null/undefined as an Option, and the browser's timer queue
 (setTimeout / clearTimeout) as abstract handles in a map of pending jobs.
 Real time is not modelled: a pending job runs only when the event loop
 hands its handle to a page's Fire method.
 */
module Browser {

  /** A value that may be null or undefined. */
  datatype Option<T> = None | Some(value: T)

  /** A timer handle as returned by setTimeout; browsers hand out positive
      integers, so a stored handle is truthy. */
  type Handle = nat

  /** A pending timer: the callback it will run and the delay it was armed with (ms). */
  datatype Job<T> = Job(task: T, delay: nat)

  class Timers<T> {
    /** The timers armed and neither fired nor cancelled. */
    var pending: map<Handle, Job<T>>
    /** The handle the next setTimeout returns; handles are never reused. */
    var next: Handle

    ghost predicate Valid()
      reads this
    {
      1 <= next &&
      forall h :: h in pending ==> 1 <= h < next
    }

    constructor ()
      ensures Valid()
      ensures pending == map[] && next == 1
    {
      pending := map[];
      next := 1;
    }

    /** setTimeout(task, delay): arms a new timer under a handle never seen before. */
    method SetTimeout(task: T, delay: nat) returns (h: Handle)
      requires Valid()
      modifies this
      ensures Valid()
      ensures h == old(next) && 1 <= h && h !in old(pending)
      ensures pending == old(pending)[h := Job(task, delay)]
      ensures next == old(next) + 1
    {
      h := next;
      pending := pending[h := Job(task, delay)];
      next := next + 1;
    }

    /** clearTimeout(h): cancels the timer if it is still pending; a handle that
        already fired, was cancelled, or is undefined is ignored. */
    method ClearTimeout(h: Option<Handle>)
      requires Valid()
      modifies this
      ensures Valid()
      ensures h.Some? ==> pending == old(pending) - {h.value}
      ensures h.None? ==> pending == old(pending)
      ensures next == old(next)
    {
      if h.Some? {
        pending := pending - {h.value};
      }
    }

    /** The event loop takes a due timer off the queue before running its
        callback; a handle that is no longer pending yields nothing. */
    method Take(h: Handle) returns (job: Option<Job<T>>)
      requires Valid()
      modifies this
      ensures Valid()
      ensures h in old(pending) ==> job == Some(old(pending)[h])
      ensures h !in old(pending) ==> job == None
      ensures pending == old(pending) - {h}
      ensures next == old(next)
    {
      if h in pending {
        job := Some(pending[h]);
      } else {
        job := None;
      }
      pending := pending - {h};
    }
  }
}
