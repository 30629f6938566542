# ThreadSafeContainer, modelled in Dafny

The repository holds three revisions of one component, `ThreadSafeContainer<T>`:
a bounded FIFO container that many producer and consumer threads share. It
has a fixed capacity and a one-way lifecycle from active to shut down. Every
call takes the container's single mutex, so each call is one atomic
transition on three fields: the buffered items (a `std::queue<T>`), the
capacity, and the active flag (`is_active_` or `inUse`).

- `TscLibrary` models `tsc::ThreadSafeContainer` in
  `lib/include/tsc/thread_safe_container.hpp`. It has `tryAdd`, `waitAdd`,
  `tryRemove`, `waitRemove`, `shutdown`, `clear`, `size`, `empty`, `full`
  and `isActive`.
- `TscPrivate` models `TSC::ThreadSafeContainer`. Its fields are declared in
  `ThreadSafeContainer.hpp` and its method bodies are in
  `ThreadSafeContainerPrivate.hpp`. It has the same operations without
  `isActive`.
- `TscOriginal` models the original class in `ThreadSafeContainer.cpp`. It
  has a private `throwOnShutdown`, blocking `add` and `remove`, `shutdown`,
  `clear` and `size`.

Each revision is a class with the fields `seq<T>`, `const maxSize: nat` and
an active flag. The class invariant is `|items| <= maxSize`. Every method
that changes state is proved against a pure transition function in
`ContainerSpec`, on the datatype `State(items, capacity, active)`. The two
newer revisions behave identically, so they share these functions. A thrown
`ShutdownException` is the `ShutdownException` case of `Outcomes.Outcome`.
The `T& item` out-parameter of a removal is an `Option<T>`: `Some(x)` means
`true` with `item = x`, and `None` means `false` with `item` unchanged.

A blocking call is modelled as the step it takes once its condition-variable
predicate holds, and that predicate is its `requires`:

- `waitAdd`: `size < capacity || !active`.
- `waitRemove`: `!empty || !active`.
- The original `add`: `!(size == maxSize && inUse)`.
- The original `remove`: `!(empty && inUse)`.

The original `add` and `remove` run `throwOnShutdown` under the lock, release
it, and then take it again to wait. So they are split into the check and the
post-wait step (`AddOnWake`, `RemoveOnWake`). The post-wait step may find the
container shut down, and then it returns `false` without throwing.

`ContainerHistory` runs any sequence of completed calls in the order they
took the mutex. Over any such history it proves:

- the capacity never changes and the bound always holds;
- FIFO order: the items that were buffered, followed by the items added,
  equal the items that left, followed by the items still buffered;
- items handed to callers come before anything `clear` discards;
- the container stays active exactly as long as nobody calls `shutdown`;
- after shutdown, no call adds or hands out anything, and only `clear` takes items out;
- after shutdown, no call stays blocked: every wait predicate holds.

A history may mix the newer operations with the original revision's
post-wait steps.

Neither newer revision lets removers drain buffered items after shutdown.
`tryRemove` and `waitRemove` throw as soon as the container is inactive, even
with items buffered (`lib/include/tsc/thread_safe_container.hpp:172-174`,
`:194-196`; `ThreadSafeContainerPrivate.hpp:92-94`, `:124-126`). Buffered
items are then only discarded by `clear`. `Scenarios.ShutdownWithPendingItems`
states this. A capacity of 0 is accepted, as in the code: while the container
is active, `tryAdd` then always returns `false`, and `waitAdd` waits for
shutdown.

## Model

| member | source | states |
|---|---|---|
| `ContainerSpec.New` | lib/include/tsc/thread_safe_container.hpp:122-124 | a new container is empty, active, has the given capacity and is within it |
| `ContainerSpec.TryAdd` | lib/include/tsc/thread_safe_container.hpp:132-149 | throws exactly when inactive; returns false exactly when active and full; appends the item at the back exactly when it returns true, and otherwise leaves the queue unchanged; capacity and flag unchanged; preserves the bound |
| `ContainerSpec.WaitAdd` | lib/include/tsc/thread_safe_container.hpp:151-166 | once room or shutdown holds: throws exactly when inactive, and otherwise appends exactly one item at the back; preserves the bound |
| `ContainerSpec.TryRemove` | lib/include/tsc/thread_safe_container.hpp:168-186 | throws exactly when inactive, even with items buffered; returns "no item" exactly when active and empty; otherwise returns the front item and leaves the tail; the state is unchanged whenever nothing is returned |
| `ContainerSpec.WaitRemove` | lib/include/tsc/thread_safe_container.hpp:188-203 | once an item or shutdown holds: throws exactly when inactive (no drain), and otherwise returns the front item and leaves the tail |
| `ContainerSpec.Shutdown` | lib/include/tsc/thread_safe_container.hpp:205-211 | the container becomes inactive; items and capacity are unchanged |
| `ContainerSpec.Clear` | lib/include/tsc/thread_safe_container.hpp:213-221 | a no-op while active; empties the queue while inactive; capacity and flag unchanged |
| `ContainerSpec.ShutdownIdempotent` | lib/include/tsc/thread_safe_container.hpp:126-211 | a second shutdown changes nothing; shutdown then clear (the destructor) leaves the container inactive and empty |
| `ContainerSpec.ThrowOnShutdown` | ThreadSafeContainer.cpp:67-74 | throws exactly when the container is not in use |
| `ContainerSpec.AddOnWake` | ThreadSafeContainer.cpp:96-114 | after the wait: returns `inUse`; pushes the item exactly when in use and otherwise changes nothing (no throw); preserves the bound |
| `ContainerSpec.Add` | ThreadSafeContainer.cpp:86-115 | check, then the post-wait step: throws exactly when not in use, otherwise pushes; never returns false when nothing intervenes |
| `ContainerSpec.RemoveOnWake` | ThreadSafeContainer.cpp:129-147 | after the wait: never throws; returns the front and pops it exactly when in use; otherwise returns false with the state unchanged |
| `ContainerSpec.Remove` | ThreadSafeContainer.cpp:119-148 | check, then the post-wait step: throws exactly when not in use, otherwise returns the front and pops it; never returns false when nothing intervenes |
| `ContainerHistory.Apply` | ThreadSafeContainerPrivate.hpp:38-163 | one call of either newer revision, or a post-wait step of the original `add`/`remove` (ThreadSafeContainer.cpp:96-147): buffered + added = departed + remaining; capacity kept; bound kept; active afterwards iff active before and the call is not shutdown; nothing added or handed out when inactive; what is handed out is exactly what departed, except for a clear after shutdown, which hands out nothing |
| `ContainerHistory.RunBounded` | ThreadSafeContainerPrivate.hpp:46-49 | over any history, capacity is fixed and `size <= maxSize` holds at the end |
| `ContainerHistory.RunFifo` | ThreadSafeContainerPrivate.hpp:38-134 | over any history: initial items + added items = departed items + remaining items, in order |
| `ContainerHistory.RunActive` | ThreadSafeContainerPrivate.hpp:140-147 | the container ends active iff it started active and no call in the history was shutdown (one-way lifecycle) |
| `ContainerHistory.RunAfterShutdown` | ThreadSafeContainerPrivate.hpp:88-135 | from an inactive container, no history adds or hands out any item, and the container stays inactive |
| `ContainerHistory.RunInactiveKeepsItems` | ThreadSafeContainerPrivate.hpp:137-163 | from an inactive container, a history without `clear` leaves the buffered items exactly as they were and takes none out: only `clear` discards after shutdown |
| `ContainerHistory.RunReleasesWaiters` | lib/include/tsc/thread_safe_container.hpp:205-211 | from an inactive container every history completes, and afterwards every call's wait predicate holds, so shutdown leaves no call blocked |
| `ContainerHistory.RunDeliveredFirst` | ThreadSafeContainerPrivate.hpp:152-163 | the items handed to callers are a prefix of the items that left the queue, in order (that nothing is handed out after shutdown is `RunAfterShutdown`) |
| `ContainerHistory.FifoFromNew` | ThreadSafeContainerPrivate.hpp:26-134 | from a new container, the items removed are a prefix of the items added, in order; the rest are still buffered, within capacity |
| `TscLibrary.ThreadSafeContainer.constructor` | lib/include/tsc/thread_safe_container.hpp:122-124 | capacity as given, empty queue, active |
| `TscLibrary.ThreadSafeContainer.Destroy` | lib/include/tsc/thread_safe_container.hpp:126-130 | shutdown then clear: inactive and empty |
| `TscLibrary.ThreadSafeContainer.TryAdd` | lib/include/tsc/thread_safe_container.hpp:132-149 | outcome and new state are those of `ContainerSpec.TryAdd`; keeps the invariant |
| `TscLibrary.ThreadSafeContainer.WaitAdd` | lib/include/tsc/thread_safe_container.hpp:151-166 | under the wait predicate, outcome and new state are those of `ContainerSpec.WaitAdd` |
| `TscLibrary.ThreadSafeContainer.TryRemove` | lib/include/tsc/thread_safe_container.hpp:168-186 | outcome and new state are those of `ContainerSpec.TryRemove` |
| `TscLibrary.ThreadSafeContainer.WaitRemove` | lib/include/tsc/thread_safe_container.hpp:188-203 | under the wait predicate, outcome and new state are those of `ContainerSpec.WaitRemove` |
| `TscLibrary.ThreadSafeContainer.Shutdown` | lib/include/tsc/thread_safe_container.hpp:205-211 | new state is `ContainerSpec.Shutdown` of the old one |
| `TscLibrary.ThreadSafeContainer.Clear` | lib/include/tsc/thread_safe_container.hpp:213-221 | the popping loop leaves `ContainerSpec.Clear` of the old state |
| `TscLibrary.ThreadSafeContainer.Size` | lib/include/tsc/thread_safe_container.hpp:223-228 | the number of buffered items, at most the capacity under the invariant |
| `TscLibrary.ThreadSafeContainer.Empty` | lib/include/tsc/thread_safe_container.hpp:230-234 | true iff `Size() == 0` |
| `TscLibrary.ThreadSafeContainer.Full` | lib/include/tsc/thread_safe_container.hpp:236-240 | true iff `Size() == maxSize` |
| `TscLibrary.ThreadSafeContainer.IsActive` | lib/include/tsc/thread_safe_container.hpp:242-246 | the active flag |
| `TscPrivate.ThreadSafeContainer.constructor` | ThreadSafeContainerPrivate.hpp:25-28 | capacity as given, empty fifo, `inUse` |
| `TscPrivate.ThreadSafeContainer.Destroy` | ThreadSafeContainerPrivate.hpp:30-34 | shutdown then clear: not in use and empty |
| `TscPrivate.ThreadSafeContainer.TryAdd` | ThreadSafeContainerPrivate.hpp:38-57 | outcome and new state are those of `ContainerSpec.TryAdd` |
| `TscPrivate.ThreadSafeContainer.WaitAdd` | ThreadSafeContainerPrivate.hpp:59-84 | under the wait predicate, outcome and new state are those of `ContainerSpec.WaitAdd` |
| `TscPrivate.ThreadSafeContainer.TryRemove` | ThreadSafeContainerPrivate.hpp:88-108 | outcome and new state are those of `ContainerSpec.TryRemove` |
| `TscPrivate.ThreadSafeContainer.WaitRemove` | ThreadSafeContainerPrivate.hpp:110-135 | under the wait predicate, outcome and new state are those of `ContainerSpec.WaitRemove` |
| `TscPrivate.ThreadSafeContainer.Shutdown` | ThreadSafeContainerPrivate.hpp:140-147 | new state is `ContainerSpec.Shutdown` of the old one |
| `TscPrivate.ThreadSafeContainer.Clear` | ThreadSafeContainerPrivate.hpp:152-163 | the popping loop leaves `ContainerSpec.Clear` of the old state |
| `TscPrivate.ThreadSafeContainer.Size` | ThreadSafeContainerPrivate.hpp:165-169 | the number of buffered items, at most the capacity under the invariant |
| `TscPrivate.ThreadSafeContainer.Empty` | ThreadSafeContainerPrivate.hpp:171-175 | true iff `Size() == 0` |
| `TscPrivate.ThreadSafeContainer.Full` | ThreadSafeContainerPrivate.hpp:177-181 | true iff `Size() == maxSize` |
| `TscOriginal.ThreadSafeContainer.constructor` | ThreadSafeContainer.cpp:76-79 | capacity as given, empty fifo, `inUse` |
| `TscOriginal.ThreadSafeContainer.ThrowOnShutdown` | ThreadSafeContainer.cpp:67-74 | read-only; throws exactly when not in use |
| `TscOriginal.ThreadSafeContainer.AddOnWake` | ThreadSafeContainer.cpp:96-114 | under the wait predicate, status and new state are those of `ContainerSpec.AddOnWake` |
| `TscOriginal.ThreadSafeContainer.Add` | ThreadSafeContainer.cpp:86-115 | `throwOnShutdown` first, then the post-wait step; outcome and new state are those of `ContainerSpec.Add` |
| `TscOriginal.ThreadSafeContainer.RemoveOnWake` | ThreadSafeContainer.cpp:129-147 | under the wait predicate, item and new state are those of `ContainerSpec.RemoveOnWake` |
| `TscOriginal.ThreadSafeContainer.Remove` | ThreadSafeContainer.cpp:119-148 | `throwOnShutdown` first, then the post-wait step; outcome and new state are those of `ContainerSpec.Remove` |
| `TscOriginal.ThreadSafeContainer.Shutdown` | ThreadSafeContainer.cpp:153-160 | new state is `ContainerSpec.Shutdown` of the old one |
| `TscOriginal.ThreadSafeContainer.Clear` | ThreadSafeContainer.cpp:165-176 | the popping loop leaves `ContainerSpec.Clear` of the old state |
| `TscOriginal.ThreadSafeContainer.Size` | ThreadSafeContainer.cpp:178-184 | the number of buffered items, at most the capacity under the invariant |
| `Scenarios.CapacityOne` | lib/include/tsc/thread_safe_container.hpp:132-186 | capacity 1: add x gives true, add y gives false, remove gives x, then remove gives false |
| `Scenarios.ShutdownWithPendingItems` | lib/include/tsc/thread_safe_container.hpp:168-221 | after shutdown with two items buffered, both `tryRemove` and `waitRemove` throw and both items stay buffered; `clear` then empties the queue |

## Left out

- The mutex, both condition variables and every `notify_one`/`notify_all` call are not modelled. Calls are atomic steps, and a blocking call is its post-wait step under its wait predicate. Fairness and wake-up signalling are therefore not stated.
- The notify condition `size == maxSize - 1` is not modelled. With capacity 0 it wraps around in unsigned arithmetic, but it affects only signalling.
- `TscOriginal.ThreadSafeContainer.Add`: the check and the post-wait step appear in one method that assumes nothing runs between them. The concurrent case is covered by `AddOnWake` and by histories of `CallAddOnWake`.
- `TscOriginal.ThreadSafeContainer.Remove`: the same holds, with `RemoveOnWake` and `CallRemoveOnWake`.
- The original revision's destructor (`ThreadSafeContainer.cpp:81-82`) has an empty body, so there is nothing to model.
- `std::queue<T>::size_type` is modelled as an unbounded `nat`. The queue can never hold enough items for the width to matter.
- Exception message strings and the `std::exception` hierarchy are reduced to one `ShutdownException` outcome.
- `maxSize` is a `const` field in every class. `ThreadSafeContainer.hpp:71` and `ThreadSafeContainer.cpp:41` do not declare it `const`, but nothing assigns it after construction.
- The demonstration and test programs are not modelled: `app/src/main.cpp`, `TSCTest.cpp`, and `writerFunc`, `readerFunc` and `main` in `ThreadSafeContainer.cpp`. They use threads, sleeps and console output.
- The random-number wrappers are not modelled: `RandomGenerator.hpp`, `RandomGenerator.h` and `lib/include/tsc/random_generator.hpp`.
- `ThreadSafeContainerPrivate.h`, which `ThreadSafeContainer.h` includes, is not part of this model.
