/** Small clients of the library revision, showing what callers can
    conclude from the contracts alone. */
module Scenarios {
  import opened Outcomes
  import TscLibrary

  /** Capacity one: the second add is refused, removals come back in order,
      and the last removal finds the container empty. */
  method CapacityOne(x: int, y: int) returns (added: seq<Outcome<bool>>, removed: seq<Outcome<Option<int>>>)
    ensures added == [Returned(true), Returned(false)]
    ensures removed == [Returned(Some(x)), Returned(None)]
  {
    var c := new TscLibrary.ThreadSafeContainer<int>(1);
    var a1 := c.TryAdd(x);
    var a2 := c.TryAdd(y);
    var r1 := c.TryRemove();
    var r2 := c.TryRemove();
    added, removed := [a1, a2], [r1, r2];
  }

  /** Items still buffered at shutdown are not handed out: both removals
      throw, and only clear gets rid of them. */
  method ShutdownWithPendingItems(x: int, y: int) returns (tried: Outcome<Option<int>>, waited: Outcome<int>, kept: nat, left: nat)
    ensures tried == ShutdownException && waited == ShutdownException
    ensures kept == 2 && left == 0
  {
    var c := new TscLibrary.ThreadSafeContainer<int>(5);
    var _ := c.TryAdd(x);
    var _ := c.WaitAdd(y);
    c.Shutdown();
    tried := c.TryRemove();
    waited := c.WaitRemove();
    kept := c.Size();
    c.Clear();
    left := c.Size();
  }
}
