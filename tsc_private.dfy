/** TSC::ThreadSafeContainer<T>, the revision whose method bodies live in
    their own header: a bounded FIFO whose every call runs under one mutex.
    The mutex and the two condition variables are not modelled; a blocking
    call is the step it takes once its wait predicate holds, which it
    requires. */
module TscPrivate {
  import opened Outcomes
  import ContainerSpec

  class ThreadSafeContainer<T> {
    const maxSize: nat
    var fifo: seq<T>
    var inUse: bool

    ghost predicate Valid()
      reads this
    {
      |fifo| <= maxSize
    }

    /** The state the mutex guards. */
    function Model(): (m: ContainerSpec.State<T>)
      reads this
    {
      ContainerSpec.State(fifo, maxSize, inUse)
    }

    constructor (capacity: nat)
      ensures Valid()
      ensures maxSize == capacity && fifo == [] && inUse
    {
      maxSize := capacity;
      fifo := [];
      inUse := true;
    }

    /** The destructor: shutdown, then clear. */
    method Destroy()
      requires Valid()
      modifies this
      ensures Valid()
      ensures !inUse && fifo == []
    {
      Shutdown();
      Clear();
    }

    method TryAdd(item: T) returns (r: Outcome<bool>)
      requires Valid()
      modifies this
      ensures Valid()
      ensures ContainerSpec.Step(r, Model()) == ContainerSpec.TryAdd(old(Model()), item)
    {
      if !inUse {
        return ShutdownException;
      }
      if |fifo| == maxSize {
        return Returned(false);
      }
      fifo := fifo + [item];
      return Returned(true);
    }

    method WaitAdd(item: T) returns (r: Outcome<()>)
      requires Valid() && ContainerSpec.CanAdd(Model())
      modifies this
      ensures Valid()
      ensures ContainerSpec.Step(r, Model()) == ContainerSpec.WaitAdd(old(Model()), item)
    {
      if !inUse {
        return ShutdownException;
      }
      fifo := fifo + [item];
      return Returned(());
    }

    method TryRemove() returns (r: Outcome<Option<T>>)
      requires Valid()
      modifies this
      ensures Valid()
      ensures ContainerSpec.Step(r, Model()) == ContainerSpec.TryRemove(old(Model()))
    {
      if !inUse {
        return ShutdownException;
      }
      if |fifo| == 0 {
        return Returned(None);
      }
      var item := fifo[0];
      fifo := fifo[1..];
      return Returned(Some(item));
    }

    method WaitRemove() returns (r: Outcome<T>)
      requires Valid() && ContainerSpec.CanRemove(Model())
      modifies this
      ensures Valid()
      ensures ContainerSpec.Step(r, Model()) == ContainerSpec.WaitRemove(old(Model()))
    {
      if !inUse {
        return ShutdownException;
      }
      var item := fifo[0];
      fifo := fifo[1..];
      return Returned(item);
    }

    method Shutdown()
      requires Valid()
      modifies this
      ensures Valid()
      ensures Model() == ContainerSpec.Shutdown(old(Model()))
    {
      inUse := false;
    }

    method Clear()
      requires Valid()
      modifies this
      ensures Valid()
      ensures Model() == ContainerSpec.Clear(old(Model()))
    {
      if !inUse {
        while |fifo| > 0
          invariant |fifo| <= maxSize && !inUse
          decreases |fifo|
        {
          fifo := fifo[1..];
        }
      }
    }

    function Size(): (n: nat)
      reads this
      ensures Valid() ==> n <= maxSize
      ensures n == |Model().items|
    {
      |fifo|
    }

    function Empty(): (b: bool)
      reads this
      ensures b <==> Size() == 0
    {
      |fifo| == 0
    }

    function Full(): (b: bool)
      reads this
      ensures b <==> Size() == maxSize
    {
      |fifo| == maxSize
    }
  }
}
