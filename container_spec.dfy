/** The state machine every revision of ThreadSafeContainer runs under its
    mutex: each call is one atomic transition on the buffered items, the
    capacity and the active flag. Blocking calls are described by the step
    they take once their wait predicate holds. */
module ContainerSpec {
  import opened Outcomes

  /** The state guarded by the mutex: the buffered items (front first), the
      fixed capacity and the active flag. */
  datatype State<T> = State(items: seq<T>, capacity: nat, active: bool)

  /** What one call produces: how it ended and the state it leaves behind. */
  datatype Step<T, R> = Step(out: Outcome<R>, next: State<T>)

  /** The class invariant: never more items than the capacity. */
  predicate Bounded<T>(s: State<T>) {
    |s.items| <= s.capacity
  }

  /** A freshly constructed container. */
  function New<T>(capacity: nat): (s: State<T>)
    ensures s.items == [] && s.active && s.capacity == capacity
    ensures Bounded(s)
  {
    State([], capacity, true)
  }

  // ---------------------------------------------------------------------
  // The two newer revisions (tryAdd, waitAdd, tryRemove, waitRemove,
  // shutdown, clear) behave identically.
  // ---------------------------------------------------------------------

  /** Non-blocking insertion. */
  function TryAdd<T>(s: State<T>, item: T): (r: Step<T, bool>)
    ensures r.next.capacity == s.capacity && r.next.active == s.active
    ensures r.out == ShutdownException <==> !s.active
    ensures r.out == Returned(false) <==> s.active && |s.items| == s.capacity
    ensures r.next.items == if r.out == Returned(true) then s.items + [item] else s.items
    ensures Bounded(s) ==> Bounded(r.next)
  {
    if !s.active then Step(ShutdownException, s)
    else if |s.items| == s.capacity then Step(Returned(false), s)
    else Step(Returned(true), s.(items := s.items + [item]))
  }

  /** The wait predicate of waitAdd: room in the buffer, or shut down. */
  predicate CanAdd<T>(s: State<T>) {
    |s.items| < s.capacity || !s.active
  }

  /** Blocking insertion, from the moment its wait predicate holds. */
  function WaitAdd<T>(s: State<T>, item: T): (r: Step<T, ()>)
    requires CanAdd(s)
    ensures r.next.capacity == s.capacity && r.next.active == s.active
    ensures r.out.Returned? <==> s.active
    ensures r.next.items == if s.active then s.items + [item] else s.items
    ensures Bounded(s) ==> Bounded(r.next)
  {
    if !s.active then Step(ShutdownException, s)
    else Step(Returned(()), s.(items := s.items + [item]))
  }

  /** Non-blocking removal. An inactive container refuses even when items
      remain buffered. */
  function TryRemove<T>(s: State<T>): (r: Step<T, Option<T>>)
    ensures r.next.capacity == s.capacity && r.next.active == s.active
    ensures r.out == ShutdownException <==> !s.active
    ensures r.out == Returned(None) <==> s.active && s.items == []
    ensures match r.out
              case Returned(Some(x)) => s.items == [x] + r.next.items
              case _ => r.next == s
  {
    if !s.active then Step(ShutdownException, s)
    else if |s.items| == 0 then Step(Returned(None), s)
    else Step(Returned(Some(s.items[0])), s.(items := s.items[1..]))
  }

  /** The wait predicate of waitRemove: something buffered, or shut down. */
  predicate CanRemove<T>(s: State<T>) {
    |s.items| > 0 || !s.active
  }

  /** Blocking removal, from the moment its wait predicate holds. Once the
      container is inactive it throws whatever is still buffered. */
  function WaitRemove<T>(s: State<T>): (r: Step<T, T>)
    requires CanRemove(s)
    ensures r.next.capacity == s.capacity && r.next.active == s.active
    ensures r.out.Returned? <==> s.active
    ensures match r.out
              case Returned(x) => s.items == [x] + r.next.items
              case ShutdownException => r.next == s
  {
    if !s.active then Step(ShutdownException, s)
    else Step(Returned(s.items[0]), s.(items := s.items[1..]))
  }

  /** Shutdown: the container becomes inactive; the buffer is kept. */
  function Shutdown<T>(s: State<T>): (r: State<T>)
    ensures !r.active
    ensures r.items == s.items && r.capacity == s.capacity
  {
    s.(active := false)
  }

  /** Clear: discards every buffered item, but only once the container is
      inactive; an active container is left alone. */
  function Clear<T>(s: State<T>): (r: State<T>)
    ensures r.capacity == s.capacity && r.active == s.active
    ensures s.active ==> r == s
    ensures !s.active ==> r.items == []
  {
    if s.active then s else s.(items := [])
  }

  // ---------------------------------------------------------------------
  // The original revision: add and remove first check for shutdown, then
  // wait, then act on what they find when they wake.
  // ---------------------------------------------------------------------

  /** The shutdown check that add and remove run before waiting. */
  function ThrowOnShutdown<T>(s: State<T>): (r: Outcome<()>)
    ensures r == ShutdownException <==> !s.active
  {
    if s.active then Returned(()) else ShutdownException
  }

  /** The wait predicate of the original add: not (full and in use). */
  predicate CanAddOnWake<T>(s: State<T>) {
    !(|s.items| == s.capacity && s.active)
  }

  /** What the original add does once it wakes: push and report true while
      in use, otherwise report false; it never throws at this point. */
  function AddOnWake<T>(s: State<T>, item: T): (r: Step<T, bool>)
    requires CanAddOnWake(s)
    ensures r.out == Returned(s.active)
    ensures r.next.capacity == s.capacity && r.next.active == s.active
    ensures r.next.items == if s.active then s.items + [item] else s.items
    ensures Bounded(s) ==> Bounded(r.next)
  {
    if s.active then Step(Returned(true), s.(items := s.items + [item]))
    else Step(Returned(false), s)
  }

  /** The original add when nothing happens between its check and its wake:
      it either throws or pushes, and never reports false. */
  function Add<T>(s: State<T>, item: T): (r: Step<T, bool>)
    requires CanAddOnWake(s)
    ensures r.out != Returned(false)
    ensures r.out == ShutdownException <==> !s.active
    ensures r.next.capacity == s.capacity && r.next.active == s.active
    ensures r.next.items == if s.active then s.items + [item] else s.items
  {
    match ThrowOnShutdown(s)
    case ShutdownException => Step(ShutdownException, s)
    case Returned(_) => AddOnWake(s, item)
  }

  /** The wait predicate of the original remove: not (empty and in use). */
  predicate CanRemoveOnWake<T>(s: State<T>) {
    !(|s.items| == 0 && s.active)
  }

  /** What the original remove does once it wakes: pop the front while in
      use, otherwise report false; it never throws at this point. */
  function RemoveOnWake<T>(s: State<T>): (r: Step<T, Option<T>>)
    requires CanRemoveOnWake(s)
    ensures r.out.Returned?
    ensures r.out.value.Some? <==> s.active
    ensures r.next.capacity == s.capacity && r.next.active == s.active
    ensures match r.out.value
              case Some(x) => s.items == [x] + r.next.items
              case None => r.next == s
  {
    if s.active then Step(Returned(Some(s.items[0])), s.(items := s.items[1..]))
    else Step(Returned(None), s)
  }

  /** The original remove when nothing happens between its check and its
      wake: it either throws or delivers the front item. */
  function Remove<T>(s: State<T>): (r: Step<T, Option<T>>)
    requires CanRemoveOnWake(s)
    ensures r.out != Returned(None)
    ensures r.out == ShutdownException <==> !s.active
    ensures r.next.capacity == s.capacity && r.next.active == s.active
    ensures match r.out
              case Returned(Some(x)) => s.items == [x] + r.next.items
              case _ => r.next == s
  {
    match ThrowOnShutdown(s)
    case ShutdownException => Step(ShutdownException, s)
    case Returned(_) => RemoveOnWake(s)
  }

  /** A second shutdown is indistinguishable from the first. */
  lemma ShutdownIdempotent<T>(s: State<T>)
    ensures Shutdown(Shutdown(s)) == Shutdown(s)
    ensures Clear(Shutdown(s)).items == [] && !Clear(Shutdown(s)).active
  {
  }
}
