/** The original ThreadSafeContainer<T>: a bounded FIFO with blocking add
    and remove only. Each of them first checks for shutdown under the mutex
    (throwing if the container is no longer in use), releases it, takes it
    again and waits, and then acts on whatever state it wakes to: if the
    container was shut down in between, it reports false instead of
    throwing. */
module TscOriginal {
  import opened Outcomes
  import ContainerSpec

  class ThreadSafeContainer<T> {
    const maxSize: nat
    var fifo: seq<T>
    var inUse: bool

    ghost predicate Valid()
      reads this
    {
      |fifo| <= maxSize
    }

    /** The state the mutex guards. */
    function Model(): (m: ContainerSpec.State<T>)
      reads this
    {
      ContainerSpec.State(fifo, maxSize, inUse)
    }

    constructor (capacity: nat)
      ensures Valid()
      ensures maxSize == capacity && fifo == [] && inUse
    {
      maxSize := capacity;
      fifo := [];
      inUse := true;
    }

    /** The check add and remove run before they wait. */
    method ThrowOnShutdown() returns (r: Outcome<()>)
      ensures r == ContainerSpec.ThrowOnShutdown(Model())
    {
      if !inUse {
        return ShutdownException;
      }
      return Returned(());
    }

    /** The part of add that runs once its wait predicate holds. */
    method AddOnWake(item: T) returns (status: bool)
      requires Valid() && ContainerSpec.CanAddOnWake(Model())
      modifies this
      ensures Valid()
      ensures ContainerSpec.Step(Returned(status), Model()) == ContainerSpec.AddOnWake(old(Model()), item)
    {
      status := false;
      if inUse {
        fifo := fifo + [item];
        status := true;
      }
    }

    /** add, when nothing runs between its check and its wake. */
    method Add(item: T) returns (r: Outcome<bool>)
      requires Valid() && ContainerSpec.CanAddOnWake(Model())
      modifies this
      ensures Valid()
      ensures ContainerSpec.Step(r, Model()) == ContainerSpec.Add(old(Model()), item)
    {
      var check := ThrowOnShutdown();
      if check.ShutdownException? {
        return ShutdownException;
      }
      var status := AddOnWake(item);
      return Returned(status);
    }

    /** The part of remove that runs once its wait predicate holds. */
    method RemoveOnWake() returns (item: Option<T>)
      requires Valid() && ContainerSpec.CanRemoveOnWake(Model())
      modifies this
      ensures Valid()
      ensures ContainerSpec.Step(Returned(item), Model()) == ContainerSpec.RemoveOnWake(old(Model()))
    {
      item := None;
      if inUse {
        item := Some(fifo[0]);
        fifo := fifo[1..];
      }
    }

    /** remove, when nothing runs between its check and its wake. */
    method Remove() returns (r: Outcome<Option<T>>)
      requires Valid() && ContainerSpec.CanRemoveOnWake(Model())
      modifies this
      ensures Valid()
      ensures ContainerSpec.Step(r, Model()) == ContainerSpec.Remove(old(Model()))
    {
      var check := ThrowOnShutdown();
      if check.ShutdownException? {
        return ShutdownException;
      }
      var item := RemoveOnWake();
      return Returned(item);
    }

    method Shutdown()
      requires Valid()
      modifies this
      ensures Valid()
      ensures Model() == ContainerSpec.Shutdown(old(Model()))
    {
      inUse := false;
    }

    method Clear()
      requires Valid()
      modifies this
      ensures Valid()
      ensures Model() == ContainerSpec.Clear(old(Model()))
    {
      if !inUse {
        while |fifo| > 0
          invariant |fifo| <= maxSize && !inUse
          decreases |fifo|
        {
          fifo := fifo[1..];
        }
      }
    }

    function Size(): (n: nat)
      reads this
      ensures Valid() ==> n <= maxSize
      ensures n == |Model().items|
    {
      |fifo|
    }
  }
}
