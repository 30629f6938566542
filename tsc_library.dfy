/** tsc::ThreadSafeContainer<T>, the library revision: a bounded FIFO whose
    every call runs under one mutex. The mutex and the two condition
    variables are not modelled; a blocking call is the step it takes once
    its wait predicate holds, which it requires. */
module TscLibrary {
  import opened Outcomes
  import ContainerSpec

  class ThreadSafeContainer<T> {
    const maxSize: nat
    var queue: seq<T>
    var active: bool

    ghost predicate Valid()
      reads this
    {
      |queue| <= maxSize
    }

    /** The state the mutex guards. */
    function Model(): (m: ContainerSpec.State<T>)
      reads this
    {
      ContainerSpec.State(queue, maxSize, active)
    }

    constructor (capacity: nat)
      ensures Valid()
      ensures maxSize == capacity && queue == [] && active
    {
      maxSize := capacity;
      queue := [];
      active := true;
    }

    /** The destructor: shutdown, then clear. */
    method Destroy()
      requires Valid()
      modifies this
      ensures Valid()
      ensures !active && queue == []
    {
      Shutdown();
      Clear();
    }

    method TryAdd(item: T) returns (r: Outcome<bool>)
      requires Valid()
      modifies this
      ensures Valid()
      ensures ContainerSpec.Step(r, Model()) == ContainerSpec.TryAdd(old(Model()), item)
    {
      if !active {
        return ShutdownException;
      }
      if |queue| == maxSize {
        return Returned(false);
      }
      queue := queue + [item];
      return Returned(true);
    }

    method WaitAdd(item: T) returns (r: Outcome<()>)
      requires Valid() && ContainerSpec.CanAdd(Model())
      modifies this
      ensures Valid()
      ensures ContainerSpec.Step(r, Model()) == ContainerSpec.WaitAdd(old(Model()), item)
    {
      if !active {
        return ShutdownException;
      }
      queue := queue + [item];
      return Returned(());
    }

    method TryRemove() returns (r: Outcome<Option<T>>)
      requires Valid()
      modifies this
      ensures Valid()
      ensures ContainerSpec.Step(r, Model()) == ContainerSpec.TryRemove(old(Model()))
    {
      if !active {
        return ShutdownException;
      }
      if |queue| == 0 {
        return Returned(None);
      }
      var item := queue[0];
      queue := queue[1..];
      return Returned(Some(item));
    }

    method WaitRemove() returns (r: Outcome<T>)
      requires Valid() && ContainerSpec.CanRemove(Model())
      modifies this
      ensures Valid()
      ensures ContainerSpec.Step(r, Model()) == ContainerSpec.WaitRemove(old(Model()))
    {
      if !active {
        return ShutdownException;
      }
      var item := queue[0];
      queue := queue[1..];
      return Returned(item);
    }

    method Shutdown()
      requires Valid()
      modifies this
      ensures Valid()
      ensures Model() == ContainerSpec.Shutdown(old(Model()))
    {
      active := false;
    }

    method Clear()
      requires Valid()
      modifies this
      ensures Valid()
      ensures Model() == ContainerSpec.Clear(old(Model()))
    {
      if !active {
        while |queue| > 0
          invariant |queue| <= maxSize && !active
          decreases |queue|
        {
          queue := queue[1..];
        }
      }
    }

    function Size(): (n: nat)
      reads this
      ensures Valid() ==> n <= maxSize
      ensures n == |Model().items|
    {
      |queue|
    }

    function Empty(): (b: bool)
      reads this
      ensures b <==> Size() == 0
    {
      |queue| == 0
    }

    function Full(): (b: bool)
      reads this
      ensures b <==> Size() == maxSize
    {
      |queue| == maxSize
    }

    function IsActive(): (b: bool)
      reads this
      ensures b <==> Model().active
    {
      active
    }
  }
}
