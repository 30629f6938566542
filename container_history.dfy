/** Histories of completed calls on one container, linearised in the order
    they took the mutex, and the guarantees that hold over any of them:
    the bound, FIFO order, and the one-way shutdown. */
module ContainerHistory {
  import opened Outcomes
  import opened ContainerSpec

  /** One completed call. The original revision's add and remove appear as
      their post-wait steps (`CallAddOnWake`, `CallRemoveOnWake`): their
      shutdown check changes nothing and may run at an earlier point. */
  datatype Op<T> =
    | CallTryAdd(x: T)
    | CallWaitAdd(x: T)
    | CallAddOnWake(x: T)
    | CallTryRemove
    | CallWaitRemove
    | CallRemoveOnWake
    | CallShutdown
    | CallClear

  /** The effect of a run of calls: the final state, the items that entered
      the buffer, the items that left it (handed out or cleared away) and
      the items handed out to callers, each in order. */
  datatype History<T> = History(final: State<T>, added: seq<T>, departed: seq<T>, delivered: seq<T>)

  /** A call can complete from `s`: a blocking call needs its wait predicate. */
  predicate Returns<T>(s: State<T>, op: Op<T>) {
    match op
    case CallWaitAdd(_) => CanAdd(s)
    case CallAddOnWake(_) => CanAddOnWake(s)
    case CallWaitRemove => CanRemove(s)
    case CallRemoveOnWake => CanRemoveOnWake(s)
    case _ => true
  }

  /** The item a removal handed to its caller, if any. */
  function Removed<T>(o: Outcome<Option<T>>): (got: seq<T>) {
    match o
    case Returned(Some(x)) => [x]
    case _ => []
  }

  /** One call as a one-step history. */
  function Apply<T>(s: State<T>, op: Op<T>): (h: History<T>)
    requires Returns(s, op)
    ensures s.items + h.added == h.departed + h.final.items
    ensures h.final.capacity == s.capacity
    ensures Bounded(s) ==> Bounded(h.final)
    ensures h.final.active <==> s.active && !op.CallShutdown?
    ensures !s.active ==> h.added == [] && h.delivered == []
    ensures h.delivered == h.departed || (op.CallClear? && !s.active && h.delivered == [])
  {
    match op
    case CallTryAdd(x) =>
      var r := TryAdd(s, x);
      History(r.next, if r.out == Returned(true) then [x] else [], [], [])
    case CallWaitAdd(x) =>
      var r := WaitAdd(s, x);
      History(r.next, if r.out.Returned? then [x] else [], [], [])
    case CallAddOnWake(x) =>
      var r := AddOnWake(s, x);
      History(r.next, if r.out == Returned(true) then [x] else [], [], [])
    case CallTryRemove =>
      var r := TryRemove(s);
      History(r.next, [], Removed(r.out), Removed(r.out))
    case CallWaitRemove =>
      var r := WaitRemove(s);
      var got := if r.out.Returned? then [r.out.value] else [];
      History(r.next, [], got, got)
    case CallRemoveOnWake =>
      var r := RemoveOnWake(s);
      History(r.next, [], Removed(r.out), Removed(r.out))
    case CallShutdown =>
      History(Shutdown(s), [], [], [])
    case CallClear =>
      var r := Clear(s);
      History(r, [], if s.active then [] else s.items, [])
  }

  /** Every call of `ops`, run in order from `s`, completes. */
  predicate Completes<T>(s: State<T>, ops: seq<Op<T>>)
    decreases |ops|
  {
    |ops| == 0 || (Returns(s, ops[0]) && Completes(Apply(s, ops[0]).final, ops[1..]))
  }

  /** The history of running `ops` in order from `s`. */
  function Run<T>(s: State<T>, ops: seq<Op<T>>): (h: History<T>)
    requires Completes(s, ops)
    decreases |ops|
  {
    if |ops| == 0 then History(s, [], [], [])
    else
      var h0 := Apply(s, ops[0]);
      var h := Run(h0.final, ops[1..]);
      History(h.final, h0.added + h.added, h0.departed + h.departed, h0.delivered + h.delivered)
  }

  /** The capacity never changes and the buffer never exceeds it. */
  lemma {:induction false} RunBounded<T>(s: State<T>, ops: seq<Op<T>>)
    requires Completes(s, ops) && Bounded(s)
    ensures Run(s, ops).final.capacity == s.capacity
    ensures Bounded(Run(s, ops).final)
    decreases |ops|
  {
    if |ops| > 0 {
      RunBounded(Apply(s, ops[0]).final, ops[1..]);
    }
  }

  /** FIFO: what was buffered followed by what entered equals what left
      followed by what is still buffered. */
  lemma {:induction false} RunFifo<T>(s: State<T>, ops: seq<Op<T>>)
    requires Completes(s, ops)
    ensures s.items + Run(s, ops).added == Run(s, ops).departed + Run(s, ops).final.items
    decreases |ops|
  {
    if |ops| > 0 {
      var h0 := Apply(s, ops[0]);
      var h := Run(h0.final, ops[1..]);
      RunFifo(h0.final, ops[1..]);
      Splice(s.items, h0.added, h.added, h0.departed, h.departed, h0.final.items, h.final.items);
    }
  }

  /** Two consecutive conservation equations combine into one. */
  lemma Splice<T>(b: seq<T>, a1: seq<T>, a2: seq<T>, d1: seq<T>, d2: seq<T>, m: seq<T>, f: seq<T>)
    requires b + a1 == d1 + m && m + a2 == d2 + f
    ensures b + (a1 + a2) == (d1 + d2) + f
  {
    calc {
      b + (a1 + a2);
      (b + a1) + a2;
      (d1 + m) + a2;
      d1 + (m + a2);
      d1 + (d2 + f);
      (d1 + d2) + f;
    }
  }

  /** The container stays active exactly as long as nobody shuts it down. */
  lemma {:induction false} RunActive<T>(s: State<T>, ops: seq<Op<T>>)
    requires Completes(s, ops)
    ensures Run(s, ops).final.active <==> s.active && forall i :: 0 <= i < |ops| ==> !ops[i].CallShutdown?
    decreases |ops|
  {
    if |ops| > 0 {
      RunActive(Apply(s, ops[0]).final, ops[1..]);
      assert forall i :: 1 <= i < |ops| ==> ops[i] == ops[1..][i - 1];
    }
  }

  /** After shutdown no call adds or hands out anything. */
  lemma {:induction false} RunAfterShutdown<T>(s: State<T>, ops: seq<Op<T>>)
    requires Completes(s, ops) && !s.active
    ensures !Run(s, ops).final.active
    ensures Run(s, ops).added == [] && Run(s, ops).delivered == []
    decreases |ops|
  {
    if |ops| > 0 {
      RunAfterShutdown(Apply(s, ops[0]).final, ops[1..]);
    }
  }

  /** After shutdown only clear takes items out: a history without clear
      leaves the buffer exactly as it was. */
  lemma {:induction false} RunInactiveKeepsItems<T>(s: State<T>, ops: seq<Op<T>>)
    requires Completes(s, ops) && !s.active
    requires forall i :: 0 <= i < |ops| ==> !ops[i].CallClear?
    ensures Run(s, ops).final.items == s.items && Run(s, ops).departed == []
    decreases |ops|
  {
    if |ops| > 0 {
      assert forall i :: 0 <= i < |ops[1..]| ==> ops[1..][i] == ops[i + 1];
      RunInactiveKeepsItems(Apply(s, ops[0]).final, ops[1..]);
    }
  }

  /** Shutdown releases every waiter: from an inactive container every run
      of calls completes, and every call, blocking or not, can then return. */
  lemma {:induction false} RunReleasesWaiters<T>(s: State<T>, ops: seq<Op<T>>, op: Op<T>)
    requires !s.active
    ensures Completes(s, ops)
    ensures Returns(Run(s, ops).final, op)
    decreases |ops|
  {
    if |ops| > 0 {
      RunReleasesWaiters(Apply(s, ops[0]).final, ops[1..], op);
    }
  }

  /** Items are handed out in the order they left the buffer, and before
      anything is cleared away. */
  lemma {:induction false} RunDeliveredFirst<T>(s: State<T>, ops: seq<Op<T>>)
    requires Completes(s, ops)
    ensures Run(s, ops).delivered <= Run(s, ops).departed
    decreases |ops|
  {
    if |ops| > 0 {
      var h0 := Apply(s, ops[0]);
      var h := Run(h0.final, ops[1..]);
      if h0.delivered == h0.departed {
        RunDeliveredFirst(h0.final, ops[1..]);
      } else {
        RunAfterShutdown(h0.final, ops[1..]);
      }
    }
  }

  /** From a new container: the items handed out are a prefix of the items
      added, in order, and what remains buffered is the rest of them. */
  lemma FifoFromNew<T>(capacity: nat, ops: seq<Op<T>>)
    requires Completes(New<T>(capacity), ops)
    ensures Run(New<T>(capacity), ops).departed + Run(New<T>(capacity), ops).final.items == Run(New<T>(capacity), ops).added
    ensures Run(New<T>(capacity), ops).delivered <= Run(New<T>(capacity), ops).added
    ensures |Run(New<T>(capacity), ops).final.items| <= capacity
  {
    RunFifo(New<T>(capacity), ops);
    RunBounded(New<T>(capacity), ops);
    RunDeliveredFirst(New<T>(capacity), ops);
  }
}
