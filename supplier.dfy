/** The per-thread driver store: a `ThreadLocal<WebDriver>` is a map from the
    calling thread to the driver that thread bound, where an absent entry reads
    as `null`. The calling thread is an explicit parameter. */
module Supplier {
  import opened Driver

  type ThreadId = nat

  /** The driver bound to `thread` in `bindings`, or `null`. */
  function BoundTo(bindings: map<ThreadId, Session?>, thread: ThreadId): (d: Session?)
    ensures d != null ==> thread in bindings && bindings[thread] == d
    ensures thread in bindings ==> d == bindings[thread]
  {
    if thread in bindings then bindings[thread] else null
  }

  /** The objects a call on `thread` may touch: its own bound driver, if any. */
  function Footprint(bindings: map<ThreadId, Session?>, thread: ThreadId): (fp: set<Session>)
    ensures forall s | s in fp :: s == BoundTo(bindings, thread)
    ensures BoundTo(bindings, thread) != null ==> BoundTo(bindings, thread) in fp
  {
    if BoundTo(bindings, thread) == null then {} else {BoundTo(bindings, thread)}
  }

  class DriverStore {
    /** One entry per thread that called `set` and has not called `remove` since. */
    var bindings: map<ThreadId, Session?>

    constructor ()
      ensures bindings == map[]
    {
      bindings := map[];
    }

    /** `putWebDriver`: binds `d` to `thread`, silently replacing an earlier binding;
        every other thread's entry stays as it was. */
    method PutWebDriver(thread: ThreadId, d: Session?)
      modifies this
      ensures thread in bindings && bindings[thread] == d
      ensures forall t :: t != thread ==> BoundTo(bindings, t) == BoundTo(old(bindings), t)
      ensures bindings == old(bindings)[thread := d]
    {
      bindings := bindings[thread := d];
    }

    /** `popWebDriver`: removes `thread`'s entry, if there is one; every other
        thread's entry stays as it was. */
    method PopWebDriver(thread: ThreadId)
      modifies this
      ensures thread !in bindings
      ensures forall t :: t != thread ==> BoundTo(bindings, t) == BoundTo(old(bindings), t)
      ensures bindings == old(bindings) - {thread}
      ensures thread !in old(bindings) ==> bindings == old(bindings)
    {
      bindings := bindings - {thread};
    }

    /** `getWebDriver`: the driver `thread` bound, or `null`; changes nothing. */
    method GetWebDriver(thread: ThreadId) returns (d: Session?)
      ensures thread in bindings ==> d == bindings[thread]
      ensures thread !in bindings ==> d == null
    {
      d := if thread in bindings then bindings[thread] else null;
    }
  }
}
