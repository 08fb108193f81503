/**
 * The shared toast queue: at most one toast per component, each with an
 * optional auto-dismiss timer that dismisses it when it fires.
 *
 * A component is identified by a number standing for the object's
 * identity; the random UUID of a new toast and the props are parameters.
 * Timers are handles mapped to the id they will dismiss; a firing is a
 * method of its own.
 */
module Toast {
  import opened Text

  const DefaultAutoDismissMs: int := 5000

  type Props = map<string, string>

  /** `autoDismiss`: `false`, or a delay in milliseconds. */
  datatype AutoDismiss = Never | After(ms: int)

  /** A delay of 0 is as falsy as `false`: no timer. */
  predicate Truthy(a: AutoDismiss) {
    a.After? && a.ms != 0
  }

  datatype Toast = Toast(id: string, component: nat, props: Props, autoDismiss: AutoDismiss, timer: Option<nat>)

  /** No two toasts share a component or an id. */
  predicate Distinct(ts: seq<Toast>) {
    forall i, j :: 0 <= i < j < |ts| ==> ts[i].component != ts[j].component && ts[i].id != ts[j].id
  }

  /** `toasts.find(t => t.component === c)`, as an index. */
  function FindByComponent(ts: seq<Toast>, c: nat): (r: Option<nat>)
    ensures r.None? <==> forall i :: 0 <= i < |ts| ==> ts[i].component != c
    ensures r.Some? ==> r.value < |ts| && ts[r.value].component == c
  {
    if ts == [] then None
    else if ts[0].component == c then Some(0)
    else
      var k := FindByComponent(ts[1..], c);
      assert forall i :: 1 <= i < |ts| ==> ts[i] == ts[1..][i - 1];
      if k.None? then None else Some(k.value + 1)
  }

  /** `toasts.find(t => t.id === id)`, as an index. */
  function FindById(ts: seq<Toast>, id: string): (r: Option<nat>)
    ensures r.None? <==> forall i :: 0 <= i < |ts| ==> ts[i].id != id
    ensures r.Some? ==> r.value < |ts| && ts[r.value].id == id
  {
    if ts == [] then None
    else if ts[0].id == id then Some(0)
    else
      var k := FindById(ts[1..], id);
      assert forall i :: 1 <= i < |ts| ==> ts[i] == ts[1..][i - 1];
      if k.None? then None else Some(k.value + 1)
  }

  /** `toasts.filter(t => t.id !== id)`. */
  function Dismissed(ts: seq<Toast>, id: string): (r: seq<Toast>)
    ensures |r| <= |ts|
    ensures forall t :: t in r <==> t in ts && t.id != id
    ensures (forall i :: 0 <= i < |ts| ==> ts[i].id != id) ==> r == ts
    ensures Distinct(ts) ==> Distinct(r)
  {
    if ts == [] then []
    else
      var rest := Dismissed(ts[1..], id);
      DismissedStep(ts, id, rest);
      if ts[0].id == id then rest else [ts[0]] + rest
  }

  /** One step of the filter: the head is dropped exactly when it carries the id. */
  lemma DismissedStep(ts: seq<Toast>, id: string, rest: seq<Toast>)
    requires ts != []
    requires |rest| <= |ts| - 1
    requires forall t :: t in rest <==> t in ts[1..] && t.id != id
    requires (forall i :: 1 <= i < |ts| ==> ts[i].id != id) ==> rest == ts[1..]
    requires Distinct(ts[1..]) ==> Distinct(rest)
    ensures var r := if ts[0].id == id then rest else [ts[0]] + rest;
      |r| <= |ts|
      && (forall t :: t in r <==> t in ts && t.id != id)
      && ((forall i :: 0 <= i < |ts| ==> ts[i].id != id) ==> r == ts)
      && (Distinct(ts) ==> Distinct(r))
  {
    assert ts == [ts[0]] + ts[1..];
    assert forall i :: 1 <= i < |ts| ==> ts[i] == ts[1..][i - 1];
    if Distinct(ts) {
      assert Distinct(ts[1..]);
    }
    KeepHead(ts, rest);
  }

  lemma KeepHead(ts: seq<Toast>, rest: seq<Toast>)
    requires ts != [] && forall t :: t in rest ==> t in ts[1..]
    ensures Distinct(ts) && Distinct(rest) ==> Distinct([ts[0]] + rest)
  {
    if Distinct(ts) && Distinct(rest) {
      var s := [ts[0]] + rest;
      forall i, j | 0 <= i < j < |s|
        ensures s[i].component != s[j].component && s[i].id != s[j].id
      {
        assert s[j] == rest[j - 1] && s[j] in ts[1..];
        var m :| 0 <= m < |ts[1..]| && ts[1..][m] == s[j];
        if i == 0 {
          assert ts[0] == ts[0] && ts[m + 1] == s[j];
        } else {
          assert s[i] == rest[i - 1];
        }
      }
    }
  }

  /** A toast's timer is armed exactly when its delay is truthy, and is pending for that toast. */
  predicate TimerOk(t: Toast, pending: map<nat, string>) {
    (t.timer.Some? <==> Truthy(t.autoDismiss))
    && (t.timer.Some? ==> t.timer.value in pending && pending[t.timer.value] == t.id)
  }

  /** Some toast other than the one at `skip` (when given) owns timer `h`. */
  predicate Owned(ts: seq<Toast>, h: nat, skip: Option<nat>) {
    exists i :: 0 <= i < |ts| && ts[i].timer == Some(h) && (skip.None? || i != skip.value)
  }

  /**
   * One toast per component, distinct ids, every toast's timer pending
   * for it, and every pending timer some toast's and older than the next
   * handle.
   */
  predicate Queue(ts: seq<Toast>, pending: map<nat, string>, next: nat) {
    Distinct(ts)
    && (forall i :: 0 <= i < |ts| ==> TimerOk(ts[i], pending))
    && (forall h :: h in pending ==> h < next && Owned(ts, h, None))
  }

  /** The timers once the toast at `k` has its timer cleared. */
  function ClearTimer(ts: seq<Toast>, pending: map<nat, string>, k: nat): map<nat, string>
    requires k < |ts|
  {
    if ts[k].timer.Some? then pending - {ts[k].timer.value} else pending
  }

  /** Clearing one toast's timer leaves every other toast's timer pending, and every remaining timer owned by another toast. */
  lemma ClearTimerRest(ts: seq<Toast>, pending: map<nat, string>, next: nat, k: nat)
    requires Queue(ts, pending, next) && k < |ts|
    ensures var p := ClearTimer(ts, pending, k);
      (forall i :: 0 <= i < |ts| && i != k ==> TimerOk(ts[i], p))
      && (forall h :: h in p ==> h < next && Owned(ts, h, Some(k)))
  {
    var p := ClearTimer(ts, pending, k);
    forall i | 0 <= i < |ts| && i != k
      ensures TimerOk(ts[i], p)
    {
      if ts[i].timer.Some? && ts[k].timer.Some? {
        assert ts[i].id != ts[k].id by {
          if i < k { assert ts[i].id != ts[k].id; } else { assert ts[k].id != ts[i].id; }
        }
      }
    }
    forall h | h in p
      ensures h < next && Owned(ts, h, Some(k))
    {
      assert Owned(ts, h, None);
      var i :| 0 <= i < |ts| && ts[i].timer == Some(h);
      assert i != k;
    }
  }

  /** Dismissing the toast at `k` (the one with that id) after clearing its timer keeps the queue valid. */
  lemma DismissKeepsQueue(ts: seq<Toast>, pending: map<nat, string>, next: nat, id: string, k: nat)
    requires Queue(ts, pending, next) && FindById(ts, id) == Some(k)
    ensures Queue(Dismissed(ts, id), ClearTimer(ts, pending, k), next)
  {
    var p := ClearTimer(ts, pending, k);
    var r := Dismissed(ts, id);
    ClearTimerRest(ts, pending, next, k);
    forall i | 0 <= i < |ts| && i != k
      ensures ts[i].id != id
    {
      if i < k { assert ts[i].id != ts[k].id; } else { assert ts[k].id != ts[i].id; }
    }
    forall i | 0 <= i < |r|
      ensures TimerOk(r[i], p)
    {
      assert r[i] in ts;
      var m :| 0 <= m < |ts| && ts[m] == r[i];
      assert m != k;
    }
    forall h | h in p
      ensures Owned(r, h, None)
    {
      var i :| 0 <= i < |ts| && ts[i].timer == Some(h) && i != k;
      assert ts[i] in r;
      var m :| 0 <= m < |r| && r[m] == ts[i];
    }
  }

  /** The toast timer `show` arms: the next handle when the delay is truthy, none otherwise. */
  function ArmedTimer(a: AutoDismiss, next: nat): Option<nat> {
    if Truthy(a) then Some(next) else None
  }

  /** The timers and next handle once a toast with id `id` has been (re)armed for delay `a`. */
  function Arm(p: map<nat, string>, next: nat, a: AutoDismiss, id: string): (map<nat, string>, nat) {
    if Truthy(a) then (p[next := id], next + 1) else (p, next)
  }

  /** Replacing a toast by one with the same id and component and a freshly armed timer keeps the queue valid. */
  lemma ReplaceKeepsQueue(ts: seq<Toast>, pending: map<nat, string>, next: nat, k: nat, u: Toast)
    requires Queue(ts, pending, next) && k < |ts|
    requires u.id == ts[k].id && u.component == ts[k].component && u.timer == ArmedTimer(u.autoDismiss, next)
    ensures var a := Arm(ClearTimer(ts, pending, k), next, u.autoDismiss, u.id);
      Queue(ts[k := u], a.0, a.1)
  {
    var p := ClearTimer(ts, pending, k);
    var a := Arm(p, next, u.autoDismiss, u.id);
    var r := ts[k := u];
    ClearTimerRest(ts, pending, next, k);
    forall i, j | 0 <= i < j < |r|
      ensures r[i].component != r[j].component && r[i].id != r[j].id
    {
      assert ts[i].component != ts[j].component && ts[i].id != ts[j].id;
    }
    forall i | 0 <= i < |r|
      ensures TimerOk(r[i], a.0)
    {
      if i != k && r[i].timer.Some? {
        assert r[i].timer.value in p && r[i].timer.value < next;
      }
    }
    forall h | h in a.0
      ensures h < a.1 && Owned(r, h, None)
    {
      if h == next && Truthy(u.autoDismiss) {
        assert r[k].timer == Some(h);
      } else {
        var i :| 0 <= i < |ts| && ts[i].timer == Some(h) && i != k;
        assert r[i].timer == Some(h);
      }
    }
  }

  /** Adding a toast for a new component, with a new id and a freshly armed timer, keeps the queue valid. */
  lemma AppendKeepsQueue(ts: seq<Toast>, pending: map<nat, string>, next: nat, u: Toast)
    requires Queue(ts, pending, next)
    requires FindByComponent(ts, u.component).None? && FindById(ts, u.id).None?
    requires u.timer == ArmedTimer(u.autoDismiss, next)
    ensures var a := Arm(pending, next, u.autoDismiss, u.id);
      Queue(ts + [u], a.0, a.1)
  {
    var a := Arm(pending, next, u.autoDismiss, u.id);
    var r := ts + [u];
    forall i | 0 <= i < |r|
      ensures TimerOk(r[i], a.0)
    {
      if i < |ts| {
        assert r[i] == ts[i];
        if r[i].timer.Some? {
          assert r[i].timer.value in pending && r[i].timer.value < next;
        }
      }
    }
    forall h | h in a.0
      ensures h < a.1 && Owned(r, h, None)
    {
      if h == next && Truthy(u.autoDismiss) {
        assert r[|ts|].timer == Some(h);
      } else {
        assert Owned(ts, h, None);
        var i :| 0 <= i < |ts| && ts[i].timer == Some(h);
        assert r[i].timer == Some(h);
      }
    }
  }

  /** A pending timer dismisses the toast that owns it: that toast is the one the id finds. */
  lemma OwnerFound(ts: seq<Toast>, pending: map<nat, string>, next: nat, h: nat)
    requires Queue(ts, pending, next) && h in pending
    ensures FindById(ts, pending[h]).Some? && ts[FindById(ts, pending[h]).value].timer == Some(h)
  {
    assert Owned(ts, h, None);
    var i :| 0 <= i < |ts| && ts[i].timer == Some(h);
    assert TimerOk(ts[i], pending);
  }

  class Toaster {
    var toasts: seq<Toast>
    /** The armed timers and the toast id each will dismiss. */
    var pendingTimers: map<nat, string>
    /** The handle the next `setTimeout` returns. */
    var nextTimerId: nat

    predicate Valid()
      reads this
    {
      Queue(toasts, pendingTimers, nextTimerId)
    }

    constructor()
      ensures Valid() && toasts == []
    {
      toasts := [];
      pendingTimers := map[];
      nextTimerId := 1;
    }

    /**
     * `dismiss`: the toast with that id is removed and its timer cleared;
     * dismissing an id that is not shown changes nothing.
     */
    method Dismiss(id: string)
      requires Valid()
      modifies this`toasts, this`pendingTimers
      ensures Valid()
      ensures toasts == Dismissed(old(toasts), id)
      ensures forall i :: 0 <= i < |toasts| ==> toasts[i].id != id
      ensures FindById(old(toasts), id).None? ==> toasts == old(toasts) && pendingTimers == old(pendingTimers)
      ensures FindById(old(toasts), id).Some? ==>
        pendingTimers == ClearTimer(old(toasts), old(pendingTimers), FindById(old(toasts), id).value)
    {
      var k := FindById(toasts, id);
      if k.None? {
        return;
      }
      DismissKeepsQueue(toasts, pendingTimers, nextTimerId, id, k.value);
      pendingTimers := ClearTimer(toasts, pendingTimers, k.value);
      toasts := Dismissed(toasts, id);
    }
    /**
     * `show`: a component already on screen keeps its toast and id, which
     * takes the new props and delay and loses its old timer; otherwise a
     * toast with the fresh id joins the end of the queue. Either way the
     * toast gets a timer exactly when the delay is truthy.
     */
    method Show(component: nat, props: Props, autoDismiss: AutoDismiss, freshId: string) returns (id: string)
      requires Valid()
      requires FindByComponent(toasts, component).None? ==> FindById(toasts, freshId).None?
      modifies this
      ensures Valid()
      ensures FindByComponent(toasts, component).Some?
      ensures var t := toasts[FindByComponent(toasts, component).value];
        t.id == id && t.props == props && t.autoDismiss == autoDismiss
        && t.timer == ArmedTimer(autoDismiss, old(nextTimerId))
      ensures FindByComponent(old(toasts), component).Some? ==>
        var k := FindByComponent(old(toasts), component).value;
        id == old(toasts)[k].id
        && toasts == old(toasts)[k := old(toasts)[k].(props := props, autoDismiss := autoDismiss, timer := ArmedTimer(autoDismiss, old(nextTimerId)))]
        && (pendingTimers, nextTimerId) == Arm(ClearTimer(old(toasts), old(pendingTimers), k), old(nextTimerId), autoDismiss, id)
      ensures FindByComponent(old(toasts), component).None? ==>
        id == freshId
        && toasts == old(toasts) + [Toast(freshId, component, props, autoDismiss, ArmedTimer(autoDismiss, old(nextTimerId)))]
        && (pendingTimers, nextTimerId) == Arm(old(pendingTimers), old(nextTimerId), autoDismiss, id)
    {
      var k := FindByComponent(toasts, component);
      if k.Some? {
        var existing := toasts[k.value];
        var updated := existing.(props := props, autoDismiss := autoDismiss, timer := ArmedTimer(autoDismiss, nextTimerId));
        ReplaceKeepsQueue(toasts, pendingTimers, nextTimerId, k.value, updated);
        var a := Arm(ClearTimer(toasts, pendingTimers, k.value), nextTimerId, autoDismiss, existing.id);
        FindByComponentReplaced(toasts, k.value, updated);
        toasts := toasts[k.value := updated];
        pendingTimers, nextTimerId := a.0, a.1;
        return existing.id;
      }
      var created := Toast(freshId, component, props, autoDismiss, ArmedTimer(autoDismiss, nextTimerId));
      AppendKeepsQueue(toasts, pendingTimers, nextTimerId, created);
      var a := Arm(pendingTimers, nextTimerId, autoDismiss, freshId);
      FindByComponentAppended(toasts, created);
      toasts := toasts + [created];
      pendingTimers, nextTimerId := a.0, a.1;
      id := freshId;
    }

    /**
     * `show(component)` with the default arguments: empty props and a
     * 5000 ms auto-dismiss, so the component's toast always gets a timer,
     * the handle armed now.
     */
    method ShowWithDefaults(component: nat, freshId: string) returns (id: string)
      requires Valid()
      requires FindByComponent(toasts, component).None? ==> FindById(toasts, freshId).None?
      modifies this
      ensures Valid()
      ensures FindByComponent(toasts, component).Some?
      ensures var t := toasts[FindByComponent(toasts, component).value];
        t.id == id && t.props == map[] && t.autoDismiss == After(DefaultAutoDismissMs)
        && t.timer == Some(old(nextTimerId))
      ensures id == if FindByComponent(old(toasts), component).Some? then old(toasts)[FindByComponent(old(toasts), component).value].id else freshId
    {
      id := Show(component, map[], After(DefaultAutoDismissMs), freshId);
    }

    /** A pending timer fires: the toast it belongs to is dismissed, and the timer is gone. */
    method Fire(h: nat)
      requires Valid() && h in pendingTimers
      modifies this`toasts, this`pendingTimers
      ensures Valid()
      ensures toasts == Dismissed(old(toasts), old(pendingTimers)[h])
      ensures pendingTimers == old(pendingTimers) - {h}
    {
      OwnerFound(toasts, pendingTimers, nextTimerId, h);
      Dismiss(pendingTimers[h]);
    }
  }

  lemma FindByComponentReplaced(ts: seq<Toast>, k: nat, u: Toast)
    requires Distinct(ts) && k < |ts| && u.component == ts[k].component
    ensures FindByComponent(ts[k := u], u.component) == Some(k)
  {
    var s := ts[k := u];
    assert s[k].component == u.component;
    assert forall i :: 0 <= i < |ts| && i != k ==> s[i].component != u.component by {
      forall i | 0 <= i < |ts| && i != k
        ensures s[i].component != u.component
      {
        if i < k { assert ts[i].component != ts[k].component; } else { assert ts[k].component != ts[i].component; }
      }
    }
  }

  lemma {:induction false} FindByComponentAppended(ts: seq<Toast>, u: Toast)
    requires FindByComponent(ts, u.component).None?
    ensures FindByComponent(ts + [u], u.component) == Some(|ts|)
    decreases |ts|
  {
    if ts != [] {
      assert (ts + [u])[1..] == ts[1..] + [u];
      assert ts[0].component != u.component;
      assert forall i :: 0 <= i < |ts[1..]| ==> ts[1..][i] == ts[i + 1];
      FindByComponentAppended(ts[1..], u);
    }
  }
}
