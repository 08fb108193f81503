/**
 * What the GPS and EML lifecycle managers share: the connection states,
 * the capped back-off schedule and the subscriber registry with
 * per-handler error isolation.
 */
module Lifecycle {
  import opened Text
  import opened Bluetooth

  datatype ConnectionState = Disconnected | Connecting | Connected

  /** What a lifecycle manager asks of its transport, in the order it asks. */
  datatype TransportCall = CreateTransport | ConnectTo(device: BluetoothDevice) | DisconnectTransport | StartReading | ListDevices

  /** A pending reconnection timer: the device its callback captured and the delay it was armed with. */
  datatype Timer = Timer(device: BluetoothDevice, delay: nat)

  // ------------------------------------------------------------- back-off

  const ReconnectionDelays: seq<nat> := [1000, 2000, 4000, 8000, 10000]
  const MaxReconnectionDelay: nat := 10000

  /** `getReconnectionDelay`: the schedule entry for the attempt, the maximum past its end. */
  function GetReconnectionDelay(attempt: nat): nat {
    if attempt >= |ReconnectionDelays| then MaxReconnectionDelay else ReconnectionDelays[attempt]
  }

  /** Every delay lies between one and ten seconds. */
  lemma DelayBounds(attempt: nat)
    ensures 1000 <= GetReconnectionDelay(attempt) <= MaxReconnectionDelay
  {
  }

  /** Later attempts never wait less. */
  lemma DelayMonotone(a: nat, b: nat)
    requires a <= b
    ensures GetReconnectionDelay(a) <= GetReconnectionDelay(b)
  {
  }

  /** The delay doubles over the first four attempts and stays at the maximum from the fifth on. */
  lemma DelaySchedule(attempt: nat)
    ensures attempt < 3 ==> GetReconnectionDelay(attempt + 1) == 2 * GetReconnectionDelay(attempt)
    ensures attempt >= 4 ==> GetReconnectionDelay(attempt) == MaxReconnectionDelay
    ensures GetReconnectionDelay(0) == 1000
  {
  }

  // --------------------------------------------------- subscriber registry

  /** A subscriber: the data on which its handler throws, and whether it passed an error handler. */
  datatype Listener<!T> = Listener(throws: T -> bool, hasOnError: bool)

  /** An async handler: its promise never throws at the call, and it passes no error handler. */
  function AsyncListener<T>(): Listener<T> {
    Listener(_ => false, false)
  }

  /** What one datum did at one subscriber. */
  datatype Delivery<T> =
    | Handled(id: string, data: T)
    | ErrorReported(id: string, data: T)
    | ErrorSwallowed(id: string, data: T)

  /** The callback `Map`, in insertion order, as `forEach` visits it. */
  type Registry<!T> = seq<(string, Listener<T>)>

  function Ids<T>(r: Registry<T>): (ids: seq<string>)
    ensures |ids| == |r|
  {
    if r == [] then [] else Ids(r[..|r| - 1]) + [r[|r| - 1].0]
  }

  lemma {:induction false} IdsAt<T>(r: Registry<T>, k: nat)
    requires k < |r|
    ensures Ids(r)[k] == r[k].0
    decreases |r|
  {
    if k < |r| - 1 {
      IdsAt(r[..|r| - 1], k);
    }
  }

  predicate UniqueIds<T>(r: Registry<T>) {
    forall i, j :: 0 <= i < j < |r| ==> r[i].0 != r[j].0
  }

  /** `Map.set`: an existing id keeps its place and gets the new listener; a new id goes last. */
  function Put<T>(r: Registry<T>, id: string, l: Listener<T>): (r': Registry<T>)
    requires UniqueIds(r)
    ensures UniqueIds(r')
    ensures forall k :: 0 <= k < |r| && r[k].0 == id ==> r' == r[k := (id, l)]
    ensures (forall k :: 0 <= k < |r| ==> r[k].0 != id) ==> r' == r + [(id, l)]
    decreases |r|
  {
    if r == [] then [(id, l)]
    else if r[0].0 == id then
      var r' := [(id, l)] + r[1..];
      PutFirst(r, id, l);
      PutUnique(r, id, l, r');
      r'
    else
      var rest := Put(r[1..], id, l);
      assert r == [r[0]] + r[1..];
      PutStep(r[0], r[1..], id, l, rest);
      PutUnique(r, id, l, [r[0]] + rest);
      [r[0]] + rest
  }

  lemma PutFirst<T>(r: Registry<T>, id: string, l: Listener<T>)
    requires r != [] && r[0].0 == id && UniqueIds(r)
    ensures forall k :: 0 <= k < |r| && r[k].0 == id ==> [(id, l)] + r[1..] == r[k := (id, l)]
  {
    forall k | 0 <= k < |r| && r[k].0 == id
      ensures [(id, l)] + r[1..] == r[k := (id, l)]
    {
      assert k == 0;
    }
  }

  /** Putting into the tail, when the head has another id. */
  lemma PutStep<T>(head: (string, Listener<T>), tail: Registry<T>, id: string, l: Listener<T>, rest: Registry<T>)
    requires head.0 != id
    requires forall k :: 0 <= k < |tail| && tail[k].0 == id ==> rest == tail[k := (id, l)]
    requires (forall k :: 0 <= k < |tail| ==> tail[k].0 != id) ==> rest == tail + [(id, l)]
    ensures var r := [head] + tail;
      forall k :: 0 <= k < |r| && r[k].0 == id ==> [head] + rest == r[k := (id, l)]
    ensures var r := [head] + tail;
      (forall k :: 0 <= k < |r| ==> r[k].0 != id) ==> [head] + rest == r + [(id, l)]
  {
    var r := [head] + tail;
    forall k | 0 <= k < |r| && r[k].0 == id
      ensures [head] + rest == r[k := (id, l)]
    {
      assert r[k] == tail[k - 1];
      assert rest == tail[k - 1 := (id, l)];
    }
    if forall k :: 0 <= k < |r| ==> r[k].0 != id {
      assert forall k :: 0 <= k < |tail| ==> tail[k] == r[k + 1];
      assert rest == tail + [(id, l)];
    }
  }

  /** Replacing an entry in place or appending a new id keeps the ids unique. */
  lemma PutUnique<T>(r: Registry<T>, id: string, l: Listener<T>, r': Registry<T>)
    requires UniqueIds(r)
    requires forall k :: 0 <= k < |r| && r[k].0 == id ==> r' == r[k := (id, l)]
    requires (forall k :: 0 <= k < |r| ==> r[k].0 != id) ==> r' == r + [(id, l)]
    ensures UniqueIds(r')
  {
    if k :| 0 <= k < |r| && r[k].0 == id {
      assert r' == r[k := (id, l)];
      assert forall i :: 0 <= i < |r| ==> r'[i].0 == r[i].0;
    } else {
      assert r' == r + [(id, l)];
    }
  }

  /** `Map.delete`: the entries with other ids, in their order. */
  function Remove<T>(r: Registry<T>, id: string): (r': Registry<T>)
    ensures forall k :: 0 <= k < |r'| ==> r'[k].0 != id
    ensures |r'| <= |r|
    decreases |r|
  {
    if r == [] then []
    else if r[0].0 == id then Remove(r[1..], id)
    else [r[0]] + Remove(r[1..], id)
  }

  /** Removing an id that is not registered changes nothing. */
  lemma {:induction false} RemoveAbsent<T>(r: Registry<T>, id: string)
    requires forall k :: 0 <= k < |r| ==> r[k].0 != id
    ensures Remove(r, id) == r
    decreases |r|
  {
    if r != [] {
      RemoveAbsent(r[1..], id);
      assert [r[0]] + r[1..] == r;
    }
  }

  /** Removing one id keeps every other entry, and only those. */
  lemma {:induction false} RemoveKeepsOthers<T>(r: Registry<T>, id: string, e: (string, Listener<T>))
    requires e.0 != id
    ensures e in Remove(r, id) <==> e in r
    decreases |r|
  {
    if r != [] {
      RemoveKeepsOthers(r[1..], id, e);
      assert r == [r[0]] + r[1..];
    }
  }

  /** Every entry left after a removal was registered before it. */
  lemma {:induction false} RemoveSubset<T>(r: Registry<T>, id: string, e: (string, Listener<T>))
    requires e in Remove(r, id)
    ensures e in r && e.0 != id
    decreases |r|
  {
    if r[0].0 != id && e != r[0] {
      RemoveSubset(r[1..], id, e);
    } else if r[0].0 == id {
      RemoveSubset(r[1..], id, e);
    }
  }

  /** Removal keeps the ids unique. */
  lemma {:induction false} RemoveUnique<T>(r: Registry<T>, id: string)
    requires UniqueIds(r)
    ensures UniqueIds(Remove(r, id))
    decreases |r|
  {
    if r != [] {
      assert UniqueIds(r[1..]) by {
        forall i, j | 0 <= i < j < |r[1..]| ensures r[1..][i].0 != r[1..][j].0 {
          assert r[1..][i] == r[i + 1] && r[1..][j] == r[j + 1];
        }
      }
      RemoveUnique(r[1..], id);
      if r[0].0 != id {
        var rest := Remove(r[1..], id);
        forall k | 0 <= k < |rest| ensures rest[k].0 != r[0].0 {
          RemoveSubset(r[1..], id, rest[k]);
          var m :| 0 <= m < |r[1..]| && r[1..][m] == rest[k];
          assert r[m + 1] == rest[k];
        }
        var r' := [r[0]] + rest;
        assert forall k :: 0 <= k < |rest| ==> r'[k + 1] == rest[k];
      }
    }
  }

  /** One datum at one subscriber: a throwing handler is caught and reported to its own error handler, if any. */
  function Outcome<T>(e: (string, Listener<T>), data: T): Delivery<T> {
    if !e.1.throws(data) then Handled(e.0, data)
    else if e.1.hasOnError then ErrorReported(e.0, data)
    else ErrorSwallowed(e.0, data)
  }

  /** `forEach` over the registry: one outcome per subscriber, in registry order. */
  function Deliver<T>(r: Registry<T>, data: T): seq<Delivery<T>> {
    if r == [] then [] else Deliver(r[..|r| - 1], data) + [Outcome(r[|r| - 1], data)]
  }

  /** Every subscriber gets the datum, whatever the others' handlers do. */
  lemma {:induction false} DeliverEach<T>(r: Registry<T>, data: T, k: nat)
    requires k < |r|
    ensures |Deliver(r, data)| == |r|
    ensures Deliver(r, data)[k] == Outcome(r[k], data)
    decreases |r|
  {
    DeliverLength(r, data);
    if k < |r| - 1 {
      DeliverEach(r[..|r| - 1], data, k);
    }
  }

  lemma {:induction false} DeliverLength<T>(r: Registry<T>, data: T)
    ensures |Deliver(r, data)| == |r|
    decreases |r|
  {
    if r != [] {
      DeliverLength(r[..|r| - 1], data);
    }
  }

  /** Several data, one after the other, each to every subscriber. */
  function DeliverAll<T>(r: Registry<T>, items: seq<T>): seq<Delivery<T>> {
    if items == [] then [] else DeliverAll(r, items[..|items| - 1]) + Deliver(r, items[|items| - 1])
  }

  lemma AppendAssoc<T>(a: seq<T>, b: seq<T>, c: seq<T>)
    ensures a + b + c == a + (b + c)
  {
  }

  /** The values `f` picks out of `xs`, in order: a loop that keeps `f(x).value` whenever `f(x)` is present. */
  function FilterMap<S, T>(xs: seq<S>, f: S -> Option<T>): seq<T> {
    if xs == [] then []
    else FilterMap(xs[..|xs| - 1], f) + (if f(xs[|xs| - 1]).Some? then [f(xs[|xs| - 1]).value] else [])
  }

  /** Everything picked comes from some element. */
  lemma {:induction false} FilterMapFrom<S, T>(xs: seq<S>, f: S -> Option<T>, y: T)
    requires y in FilterMap(xs, f)
    ensures exists i :: 0 <= i < |xs| && f(xs[i]) == Some(y)
    decreases |xs|
  {
    var p := xs[..|xs| - 1];
    if y in FilterMap(p, f) {
      FilterMapFrom(p, f, y);
      var i :| 0 <= i < |p| && f(p[i]) == Some(y);
      assert xs[i] == p[i];
    } else {
      assert f(xs[|xs| - 1]) == Some(y);
    }
  }

  /** Every element's pick is kept. */
  lemma {:induction false} FilterMapComplete<S, T>(xs: seq<S>, f: S -> Option<T>, i: nat)
    requires i < |xs| && f(xs[i]).Some?
    ensures f(xs[i]).value in FilterMap(xs, f)
    decreases |xs|
  {
    var p := xs[..|xs| - 1];
    if i < |xs| - 1 {
      assert p[i] == xs[i];
      FilterMapComplete(p, f, i);
    }
  }

  /** Delivering the picks of one more element appends that element's deliveries. */
  lemma DeliverFilterMapStep<S, T>(r: Registry<T>, xs: seq<S>, f: S -> Option<T>, i: nat)
    requires i < |xs|
    ensures DeliverAll(r, FilterMap(xs[..i + 1], f))
      == DeliverAll(r, FilterMap(xs[..i], f)) + (if f(xs[i]).Some? then Deliver(r, f(xs[i]).value) else [])
  {
    assert xs[..i + 1][..i] == xs[..i];
    var one := if f(xs[i]).Some? then [f(xs[i]).value] else [];
    assert FilterMap(xs[..i + 1], f) == FilterMap(xs[..i], f) + one;
    DeliverAllConcat(r, FilterMap(xs[..i], f), one);
    if f(xs[i]).Some? {
      DeliverAllOne(r, f(xs[i]).value);
    }
  }

  lemma DeliverAllOne<T>(r: Registry<T>, x: T)
    ensures DeliverAll(r, [x]) == Deliver(r, x)
  {
    assert [x][..0] == [];
  }

  /** Delivering a batch and then another is delivering both in one go. */
  lemma {:induction false} DeliverAllConcat<T>(r: Registry<T>, a: seq<T>, b: seq<T>)
    ensures DeliverAll(r, a + b) == DeliverAll(r, a) + DeliverAll(r, b)
    decreases |b|
  {
    if b == [] {
      assert a + b == a;
    } else {
      var b', x := b[..|b| - 1], b[|b| - 1];
      var ab := a + b;
      assert ab[..|ab| - 1] == a + b' && ab[|ab| - 1] == x;
      calc {
        DeliverAll(r, ab);
        DeliverAll(r, a + b') + Deliver(r, x);
        { DeliverAllConcat(r, a, b'); }
        DeliverAll(r, a) + DeliverAll(r, b') + Deliver(r, x);
        { AppendAssoc(DeliverAll(r, a), DeliverAll(r, b'), Deliver(r, x)); }
        DeliverAll(r, a) + (DeliverAll(r, b') + Deliver(r, x));
        DeliverAll(r, a) + DeliverAll(r, b);
      }
    }
  }

  lemma {:induction false} DeliverAllLength<T>(r: Registry<T>, items: seq<T>)
    ensures |DeliverAll(r, items)| == |r| * |items|
    decreases |items|
  {
    if items != [] {
      DeliverAllLength(r, items[..|items| - 1]);
      DeliverLength(r, items[|items| - 1]);
      assert |r| * |items| == |r| * (|items| - 1) + |r|;
    }
  }
}
