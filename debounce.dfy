/**
 * A debounced callback: each call cancels the pending timeout and arms a
 * new one with the call's arguments, so at most one timeout is ever
 * pending and only the last call of a burst reaches the callback.
 *
 * Timeouts are handles with the arguments they will pass; a firing is a
 * method of its own, and the callback's invocations are recorded in order.
 */
module Debounce {
  import opened Text

  const DefaultDelayMs: int := 500

  class Debouncer<A> {
    /** The delay every timeout is armed with; the clock itself is not modelled. */
    const delay: int
    var timeoutId: Option<nat>
    /** The armed timeouts and the arguments each will pass. */
    var pending: map<nat, A>
    /** The handle the next `setTimeout` returns. */
    var nextTimerId: nat
    /** The arguments of each callback invocation, oldest first. */
    var invocations: seq<A>

    /** At most one timeout is pending, and it is the one `timeoutId` holds. */
    predicate Valid()
      reads this
    {
      (timeoutId.None? <==> pending == map[])
      && (timeoutId.Some? ==> pending.Keys == {timeoutId.value} && timeoutId.value < nextTimerId)
    }

    constructor(delay: int)
      ensures Valid() && this.delay == delay && timeoutId == None && invocations == []
    {
      this.delay := delay;
      timeoutId := None;
      pending := map[];
      nextTimerId := 1;
      invocations := [];
    }

    /** `useDebounce(callback)` without a delay: the 500 ms default. */
    constructor WithDefaultDelay()
      ensures Valid() && delay == DefaultDelayMs && timeoutId == None && invocations == []
    {
      delay := DefaultDelayMs;
      timeoutId := None;
      pending := map[];
      nextTimerId := 1;
      invocations := [];
    }

    /** `debouncedFunction(...args)`: the previous timeout, if any, is cleared and a fresh one carries these arguments. */
    method Call(args: A)
      requires Valid()
      modifies this`timeoutId, this`pending, this`nextTimerId
      ensures Valid()
      ensures timeoutId == Some(old(nextTimerId)) && pending == map[old(nextTimerId) := args]
      ensures nextTimerId == old(nextTimerId) + 1
    {
      if timeoutId.Some? {
        pending := pending - {timeoutId.value};
      }
      assert pending.Keys == {};
      assert pending == map[];
      var id := nextTimerId;
      nextTimerId := nextTimerId + 1;
      pending := pending[id := args];
      assert id in pending && pending.Keys == {id};
      timeoutId := Some(id);
    }

    /** A timeout fires: the callback runs with its arguments, and nothing is pending any more. */
    method Fire(t: nat)
      requires Valid() && t in pending
      modifies this`timeoutId, this`pending, this`invocations
      ensures Valid() && timeoutId == None && pending == map[]
      ensures invocations == old(invocations) + [old(pending)[t]]
    {
      var args := pending[t];
      pending := pending - {t};
      invocations := invocations + [args];
      timeoutId := None;
    }

    /** `cleanup`: clears the pending timeout, if any. */
    method Cleanup()
      requires Valid()
      modifies this`timeoutId, this`pending
      ensures Valid() && timeoutId == None && pending == map[]
    {
      if timeoutId.Some? {
        pending := pending - {timeoutId.value};
        timeoutId := None;
      }
    }
  }

  /**
   * A burst of calls followed by the timeout firing invokes the callback
   * exactly once, with the arguments of the last call: after each call of
   * the burst exactly one timeout is pending, and it carries that call's
   * arguments.
   */
  method Burst<A>(d: Debouncer<A>, burst: seq<A>)
    requires d.Valid() && |burst| > 0
    modifies d
    ensures d.Valid() && d.timeoutId == None
    ensures d.invocations == old(d.invocations) + [burst[|burst| - 1]]
  {
    var k := 0;
    while k < |burst|
      invariant 0 <= k <= |burst|
      invariant d.Valid() && d.invocations == old(d.invocations)
      invariant k > 0 ==> d.timeoutId.Some? && d.pending == map[d.timeoutId.value := burst[k - 1]]
    {
      d.Call(burst[k]);
      k := k + 1;
    }
    var t := d.timeoutId.value;
    d.Fire(t);
  }
}
