/**
 * The EML lifecycle manager: the same connection and reconnection cycle as
 * the GPS manager, guarded by an `isReconnecting` flag that keeps a single
 * reconnection in flight, and newline framing of the locator's text lines,
 * which go to subscribers trimmed and without blank lines.
 *
 * Each Vue watcher callback, each transport event and each timer firing is
 * one method, run to completion; what the transport or the settings store
 * answers is a parameter.
 */
module EmlService {
  import opened Text
  import opened Bluetooth
  import opened Lifecycle
  import NmeaParser

  /** The line a complete piece contributes: trimmed, and none when blank. */
  function Line(piece: string): (r: Option<string>)
    ensures r.Some? ==> r.value != [] && r.value == Trim(piece)
    ensures r.None? <==> Trim(piece) == []
  {
    var t := Trim(piece);
    if t != [] then Some(t) else None
  }

  /**
   * `handleDataReceived`'s framing of the buffer: the pieces between
   * newlines but the last are complete lines, and the last piece stays
   * buffered.
   */
  function Frame(buffer: string): (r: (seq<string>, string))
    ensures '\n' !in r.1
  {
    var pieces := Split(buffer, '\n');
    (FilterMap(pieces[..|pieces| - 1], Line), pieces[|pieces| - 1])
  }

  /** Text without a newline is all kept, and nothing is distributed. */
  lemma FrameNoNewline(buffer: string)
    requires '\n' !in buffer
    ensures Frame(buffer) == ([], buffer)
  {
    assert IndexOf(buffer, '\n') == -1;
  }

  /** A position holding `c` with no `c` before it is where `indexOf` finds it. */
  lemma FirstIndex(s: string, c: char, j: nat)
    requires j < |s| && s[j] == c && c !in s[..j]
    ensures IndexOf(s, c) == j
  {
    var r := IndexOf(s, c);
    assert forall i :: 0 <= i < j ==> s[..j][i] == s[i];
    assert forall i :: 0 <= i < r ==> s[..r][i] == s[i];
  }

  /** The piece after the last newline of a split is the text after it. */
  lemma {:induction false} SplitLast(a: string, b: string, c: char)
    requires c !in b
    ensures |Split(a + [c] + b, c)| >= 2
    ensures Split(a + [c] + b, c)[|Split(a + [c] + b, c)| - 1] == b
    decreases |a|
  {
    if c in a {
      var j := IndexOf(a, c);
      var tail := Split(a[j + 1..] + [c] + b, c);
      SplitFirst(a, b, c, j);
      SplitLast(a[j + 1..], b, c);
      LastOfCons(a[..j], tail);
    } else {
      SplitAtLast(a, b, c);
    }
  }

  /** A split starts with the text before the first separator. */
  lemma SplitFirst(a: string, b: string, c: char, j: nat)
    requires j < |a| && j == IndexOf(a, c)
    ensures Split(a + [c] + b, c) == [a[..j]] + Split(a[j + 1..] + [c] + b, c)
  {
    var s := a + [c] + b;
    ConcatAround(a, b, c, j);
    FirstIndex(s, c, j);
    NmeaParser.SplitCons(s, c);
  }

  /** Cutting `a + [c] + b` around a position inside `a`. */
  lemma ConcatAround(a: string, b: string, c: char, j: nat)
    requires j < |a| && j == IndexOf(a, c)
    ensures var s := a + [c] + b;
      j < |s| && s[j] == c && s[..j] == a[..j] && c !in s[..j] && s[j + 1..] == a[j + 1..] + [c] + b
  {
    var s := a + [c] + b;
    assert s[j] == a[j];
    assert s[..j] == a[..j];
    assert s[j + 1..] == a[j + 1..] + [c] + b;
  }

  lemma LastOfCons(x: string, r: seq<string>)
    requires |r| >= 1
    ensures ([x] + r)[|[x] + r| - 1] == r[|r| - 1]
  {
  }

  /** Splitting at the only separator gives the text before and after it. */
  lemma SplitAtLast(a: string, b: string, c: char)
    requires c !in a && c !in b
    ensures Split(a + [c] + b, c) == [a, b]
  {
    var s := a + [c] + b;
    assert s[..|a|] == a;
    FirstIndex(s, c, |a|);
    assert s[|a| + 1..] == b;
    assert IndexOf(b, c) == -1;
  }

  /**
   * Whatever follows the last newline stays buffered: once a newline has
   * arrived, the remainder is exactly the text after the last one.
   */
  lemma FrameRemainder(a: string, b: string)
    requires '\n' !in b
    ensures Frame(a + "\n" + b).1 == b
  {
    SplitLast(a, b, '\n');
  }

  /** Every distributed line is the trimmed, non-blank form of a complete piece. */
  lemma FramedLinesFrom(buffer: string, line: string)
    requires line in Frame(buffer).0
    ensures line != []
    ensures exists k :: 0 <= k < |Split(buffer, '\n')| - 1 && line == Trim(Split(buffer, '\n')[k])
  {
    var pieces := Split(buffer, '\n');
    var complete := pieces[..|pieces| - 1];
    assert Frame(buffer).0 == FilterMap(complete, Line);
    FilterMapFrom(complete, Line, line);
    var k :| 0 <= k < |complete| && Line(complete[k]) == Some(line);
    assert complete[k] == pieces[k];
    assert 0 <= k < |pieces| - 1 && line == Trim(pieces[k]);
  }

  /** Conversely, every complete piece that is not blank is distributed, trimmed. */
  lemma FramedLinesComplete(buffer: string, k: nat)
    requires k < |Split(buffer, '\n')| - 1
    requires Trim(Split(buffer, '\n')[k]) != []
    ensures Trim(Split(buffer, '\n')[k]) in Frame(buffer).0
  {
    var pieces := Split(buffer, '\n');
    assert pieces[..|pieces| - 1][k] == pieces[k];
    FilterMapComplete(pieces[..|pieces| - 1], Line, k);
  }

  class Service {
    var reconnectionTimer: Option<nat>
    /** The browser's timer table, as far as this service arms timers: handle to timer. */
    var pendingTimers: map<nat, Timer>
    var nextTimerId: nat
    var reconnectionAttempt: nat
    var transportCreated: bool
    var transportCalls: seq<TransportCall>
    var isChangingDevice: bool
    var isReconnecting: bool
    var receivingBuffer: string
    var connectionState: ConnectionState
    var connectedDevice: Option<BluetoothDevice>
    var callbacks: Registry<string>
    var deliveries: seq<Delivery<string>>

    /** Handles are fresh, the buffer holds no complete line, and subscriber ids are unique. */
    ghost predicate Consistent()
      reads this
    {
      (forall t :: t in pendingTimers ==> t < nextTimerId)
      && '\n' !in receivingBuffer
      && UniqueIds(callbacks)
    }

    /** Moreover at most one timer is pending, the handle names it, and a pending timer means a reconnection is in flight. */
    ghost predicate Valid()
      reads this
    {
      Consistent()
      && (reconnectionTimer.None? ==> pendingTimers == map[])
      && (reconnectionTimer.Some? ==> pendingTimers.Keys == {reconnectionTimer.value} && isReconnecting)
    }

    twostate predicate TimersUnchanged()
      reads this
    {
      reconnectionTimer == old(reconnectionTimer) && pendingTimers == old(pendingTimers)
      && nextTimerId == old(nextTimerId) && reconnectionAttempt == old(reconnectionAttempt)
      && isReconnecting == old(isReconnecting)
    }

    twostate predicate ConnectionUnchanged()
      reads this
    {
      connectionState == old(connectionState) && connectedDevice == old(connectedDevice)
      && transportCreated == old(transportCreated) && transportCalls == old(transportCalls)
    }

    constructor ()
      ensures Valid()
      ensures connectionState == Disconnected && connectedDevice == None
      ensures reconnectionTimer == None && reconnectionAttempt == 0 && !isReconnecting && !transportCreated
      ensures receivingBuffer == [] && callbacks == [] && deliveries == [] && transportCalls == []
    {
      reconnectionTimer := None;
      pendingTimers := map[];
      nextTimerId := 1;
      reconnectionAttempt := 0;
      transportCreated := false;
      transportCalls := [];
      isChangingDevice := false;
      isReconnecting := false;
      receivingBuffer := [];
      connectionState := Disconnected;
      connectedDevice := None;
      callbacks := [];
      deliveries := [];
    }

    /** At most one reconnection timer is ever pending, and only while a reconnection is in flight. */
    lemma AtMostOneTimer()
      requires Valid()
      ensures |pendingTimers| <= 1
      ensures pendingTimers != map[] ==> isReconnecting
    {
      if reconnectionTimer.Some? {
        assert pendingTimers.Keys == {reconnectionTimer.value};
      }
    }

    /** With the handle set and the table holding just that timer, its values are that one timer. */
    lemma OnlyTimer()
      requires Valid() && reconnectionTimer.Some?
      ensures pendingTimers.Values == {pendingTimers[reconnectionTimer.value]}
    {
      var u := reconnectionTimer.value;
      assert u in pendingTimers;
      forall v | v in pendingTimers.Values ensures v == pendingTimers[u] {
        var w :| w in pendingTimers && pendingTimers[w] == v;
      }
    }

    // ------------------------------------------------------------ data

    /** `distributeEmlData`: every subscriber, in registry order, gets the line. */
    method DistributeEmlData(data: string)
      modifies this`deliveries
      ensures deliveries == old(deliveries) + Deliver(callbacks, data)
    {
      for k := 0 to |callbacks|
        invariant deliveries == old(deliveries) + Deliver(callbacks[..k], data)
      {
        assert callbacks[..k + 1][..k] == callbacks[..k];
        deliveries := deliveries + [Outcome(callbacks[k], data)];
      }
      assert callbacks[..|callbacks|] == callbacks;
    }

    /** The loop of `handleDataReceived` over the complete pieces, in order. */
    method DistributeLines(pieces: seq<string>)
      modifies this`deliveries
      ensures deliveries == old(deliveries) + DeliverAll(callbacks, FilterMap(pieces, Line))
    {
      for i := 0 to |pieces|
        invariant deliveries == old(deliveries) + DeliverAll(callbacks, FilterMap(pieces[..i], Line))
      {
        ghost var done := DeliverAll(callbacks, FilterMap(pieces[..i], Line));
        var trimmedLine := Trim(pieces[i]);
        ghost var added := if trimmedLine != [] then Deliver(callbacks, trimmedLine) else [];
        if trimmedLine != [] {
          DistributeEmlData(trimmedLine);
        }
        assert deliveries == old(deliveries) + done + added;
        assert Line(pieces[i]) == if trimmedLine != [] then Some(trimmedLine) else None;
        DeliverFilterMapStep(callbacks, pieces, Line, i);
        AppendAssoc(old(deliveries), done, added);
      }
      assert pieces[..|pieces|] == pieces;
    }

    /**
     * `handleDataReceived`, for the text the decoder produced: the buffer
     * is split at newlines, the last piece stays buffered, and every other
     * piece that is not blank goes, trimmed, to every subscriber.
     */
    method HandleDataReceived(decoded: string)
      requires Valid()
      modifies this`receivingBuffer, this`deliveries
      ensures Valid()
      ensures receivingBuffer == Frame(old(receivingBuffer) + decoded).1
      ensures deliveries == old(deliveries) + DeliverAll(callbacks, Frame(old(receivingBuffer) + decoded).0)
    {
      if decoded != [] {
        receivingBuffer := receivingBuffer + decoded;
      } else {
        assert receivingBuffer + decoded == receivingBuffer;
      }
      var lines := Split(receivingBuffer, '\n');
      var complete := lines[..|lines| - 1];
      receivingBuffer := lines[|lines| - 1];
      DistributeLines(complete);
    }

    // -------------------------------------------------- transport events

    /**
     * `handleConnect`: the reconnection in flight is over, the state is
     * CONNECTED and reading starts if a transport exists. A connect that
     * arrives while a timer is still pending leaves that timer armed but
     * no longer marked as in flight.
     */
    method HandleConnect()
      requires Valid()
      modifies this`isReconnecting, this`connectionState, this`transportCalls
      ensures Consistent()
      ensures old(reconnectionTimer).None? ==> Valid()
      ensures !isReconnecting && connectionState == Connected
      ensures transportCalls == old(transportCalls) + if transportCreated then [StartReading] else []
    {
      isReconnecting := false;
      connectionState := Connected;
      if transportCreated {
        transportCalls := transportCalls + [StartReading];
      }
    }

    // ------------------------------------------------ connection management

    method CreateTransportIfMissing()
      modifies this`transportCreated, this`transportCalls
      ensures transportCreated
      ensures transportCalls == old(transportCalls) + if old(transportCreated) then [] else [CreateTransport]
    {
      if !transportCreated {
        transportCreated := true;
        transportCalls := transportCalls + [CreateTransport];
      }
    }

    /**
     * `connectToDevice`, where `transportOk` is whether the transport's
     * connect resolved: on success the device is recorded and the attempt
     * count reset; on failure the state is DISCONNECTED and the error is
     * passed on (`success` false).
     */
    method ConnectToDevice(device: BluetoothDevice, transportOk: bool) returns (success: bool)
      requires Valid()
      modifies this`transportCreated, this`transportCalls, this`connectionState, this`connectedDevice, this`reconnectionAttempt
      ensures Valid()
      ensures success == transportOk
      ensures transportCreated
      ensures transportCalls == old(transportCalls) + (if old(transportCreated) then [] else [CreateTransport]) + [ConnectTo(device)]
      ensures success ==> connectionState == Connecting && connectedDevice == Some(device) && reconnectionAttempt == 0
      ensures !success ==> connectionState == Disconnected && connectedDevice == old(connectedDevice)
      ensures !success ==> reconnectionAttempt == old(reconnectionAttempt)
    {
      CreateTransportIfMissing();
      connectionState := Connecting;
      transportCalls := transportCalls + [ConnectTo(device)];
      if transportOk {
        connectedDevice := Some(device);
        reconnectionAttempt := 0;
        success := true;
      } else {
        connectionState := Disconnected;
        success := false;
      }
    }

    /**
     * `disconnect`, where `transportOk` is whether the transport's
     * disconnect resolved: the state always ends DISCONNECTED with no
     * device; the buffer is cleared only when the disconnect succeeded.
     */
    method Disconnect(transportOk: bool) returns (success: bool)
      requires Valid()
      modifies this`transportCalls, this`receivingBuffer, this`connectionState, this`connectedDevice
      ensures Valid()
      ensures success == (!transportCreated || transportOk)
      ensures transportCalls == old(transportCalls) + if transportCreated then [DisconnectTransport] else []
      ensures connectionState == Disconnected && connectedDevice == None
      ensures receivingBuffer == if success then [] else old(receivingBuffer)
    {
      success := true;
      if transportCreated {
        transportCalls := transportCalls + [DisconnectTransport];
        success := transportOk;
      }
      if success {
        receivingBuffer := [];
      }
      connectionState := Disconnected;
      connectedDevice := None;
    }

    // ------------------------------------------------------ reconnection

    /**
     * `cancelReconnection`: with a timer pending or a reconnection in
     * flight, the timer is cleared, the attempt count reset and the flag
     * lowered; otherwise nothing changes.
     */
    method CancelReconnection()
      requires Valid()
      modifies this`reconnectionTimer, this`pendingTimers, this`reconnectionAttempt, this`isReconnecting
      ensures Valid()
      ensures reconnectionTimer == None && pendingTimers == map[] && !isReconnecting
      ensures old(reconnectionTimer).Some? || old(isReconnecting) ==> reconnectionAttempt == 0
      ensures old(reconnectionTimer).None? && !old(isReconnecting) ==> reconnectionAttempt == old(reconnectionAttempt)
    {
      if reconnectionTimer.Some? || isReconnecting {
        if reconnectionTimer.Some? {
          pendingTimers := pendingTimers - {reconnectionTimer.value};
        }
        reconnectionTimer := None;
        reconnectionAttempt := 0;
        isReconnecting := false;
      }
    }

    /**
     * `scheduleReconnection`: skipped while a reconnection is in flight;
     * otherwise raises the flag and arms one timer for the device with the
     * delay of the current attempt.
     */
    method ScheduleReconnection(device: BluetoothDevice)
      requires Valid()
      modifies this`reconnectionTimer, this`pendingTimers, this`nextTimerId, this`isReconnecting
      ensures Valid() && isReconnecting
      ensures old(isReconnecting) ==> TimersUnchanged()
      ensures !old(isReconnecting) ==>
        reconnectionTimer == Some(old(nextTimerId)) && nextTimerId == old(nextTimerId) + 1
        && pendingTimers == map[old(nextTimerId) := Timer(device, GetReconnectionDelay(reconnectionAttempt))]
    {
      if isReconnecting {
        return;
      }
      isReconnecting := true;
      var delay := GetReconnectionDelay(reconnectionAttempt);
      var t := nextTimerId;
      nextTimerId := nextTimerId + 1;
      pendingTimers := pendingTimers[t := Timer(device, delay)];
      reconnectionTimer := Some(t);
    }

    /**
     * The reconnection timer `t` fires: its handle is cleared, the attempt
     * count goes up and the captured device is connected. On failure the
     * connection-state watcher runs first, before the `catch` resumes, and
     * stays idle because the flag is up; the `catch` then lowers the flag
     * and schedules the next attempt with the next delay.
     */
    method FireReconnectionTimer(t: nat, transportOk: bool, disabled: bool, selected: Option<BluetoothDevice>)
      requires Valid() && t in pendingTimers
      modifies this`transportCreated, this`transportCalls, this`connectionState, this`connectedDevice
      modifies this`reconnectionAttempt, this`reconnectionTimer, this`pendingTimers, this`nextTimerId, this`isReconnecting
      ensures Valid() && isReconnecting
      ensures transportOk ==>
        reconnectionTimer == None && reconnectionAttempt == 0
        && connectionState == Connecting && connectedDevice == Some(old(pendingTimers[t].device))
      ensures !transportOk ==>
        reconnectionAttempt == old(reconnectionAttempt) + 1 && connectionState == Disconnected
        && reconnectionTimer == Some(old(nextTimerId))
        && pendingTimers == map[old(nextTimerId) := Timer(old(pendingTimers[t].device), GetReconnectionDelay(old(reconnectionAttempt) + 1))]
    {
      var timer := pendingTimers[t];
      pendingTimers := pendingTimers - {t};
      reconnectionTimer := None;
      reconnectionAttempt := reconnectionAttempt + 1;
      var success := ConnectToDevice(timer.device, transportOk);
      if !success {
        RetryAfterFailure(timer.device, disabled, selected);
      }
    }

    /**
     * The timer's failed attempt, as the browser orders it: the
     * connection-state watcher sees DISCONNECTED first and stays idle
     * because the flag is up; the `catch` then lowers the flag and
     * schedules the next attempt for the captured device.
     */
    method RetryAfterFailure(device: BluetoothDevice, disabled: bool, selected: Option<BluetoothDevice>)
      requires Valid() && reconnectionTimer == None && isReconnecting
      modifies this`reconnectionTimer, this`pendingTimers, this`nextTimerId, this`reconnectionAttempt, this`isReconnecting
      ensures Valid() && isReconnecting
      ensures reconnectionAttempt == old(reconnectionAttempt)
      ensures reconnectionTimer == Some(old(nextTimerId))
      ensures pendingTimers == map[old(nextTimerId) := Timer(device, GetReconnectionDelay(reconnectionAttempt))]
    {
      OnStateChange(Disconnected, disabled, selected);
      isReconnecting := false;
      ScheduleReconnection(device);
    }

    /**
     * `connectToDevice` followed by the `catch` of its callers in the
     * watchers: a failure schedules a reconnection to the same device.
     */
    method ConnectOrRetry(device: BluetoothDevice, transportOk: bool)
      requires Valid() && !isReconnecting
      modifies this`transportCreated, this`transportCalls, this`connectionState, this`connectedDevice
      modifies this`reconnectionAttempt, this`reconnectionTimer, this`pendingTimers, this`nextTimerId, this`isReconnecting
      ensures Valid()
      ensures transportCreated
      ensures transportCalls == old(transportCalls) + (if old(transportCreated) then [] else [CreateTransport]) + [ConnectTo(device)]
      ensures transportOk ==>
        connectionState == Connecting && connectedDevice == Some(device) && reconnectionAttempt == 0
        && reconnectionTimer == None && !isReconnecting
      ensures !transportOk ==>
        connectionState == Disconnected && connectedDevice == old(connectedDevice) && reconnectionAttempt == old(reconnectionAttempt)
      ensures !transportOk ==>
        isReconnecting && reconnectionTimer.Some? && pendingTimers.Values == {Timer(device, GetReconnectionDelay(reconnectionAttempt))}
    {
      var success := ConnectToDevice(device, transportOk);
      if !success {
        ScheduleReconnection(device);
        OnlyTimer();
      }
    }

    // ----------------------------------------------------------- watchers

    /**
     * The watcher on the EML connection type: any reconnection is
     * cancelled; disabling disconnects a connected device; otherwise the
     * selected device, if any, is connected, and a failure schedules a
     * reconnection.
     */
    method OnConnectionTypeChange(disabled: bool, selected: Option<BluetoothDevice>, disconnectOk: bool, connectOk: bool)
      requires Valid()
      modifies this`transportCreated, this`transportCalls, this`connectionState, this`connectedDevice, this`receivingBuffer
      modifies this`reconnectionAttempt, this`reconnectionTimer, this`pendingTimers, this`nextTimerId, this`isReconnecting
      modifies this`isChangingDevice
      ensures Valid() && !isChangingDevice
      ensures disabled && old(connectedDevice).Some? ==> connectionState == Disconnected && connectedDevice == None
      ensures disabled && old(connectedDevice).None? ==> ConnectionUnchanged()
      ensures disabled ==> reconnectionTimer == None && !isReconnecting
      ensures !disabled && selected.Some? && connectOk ==>
        connectionState == Connecting && connectedDevice == selected && reconnectionTimer == None && reconnectionAttempt == 0
      ensures !disabled && selected.Some? && !connectOk ==>
        connectionState == Disconnected && connectedDevice == old(connectedDevice) && isReconnecting
        && pendingTimers.Values == {Timer(selected.value, GetReconnectionDelay(reconnectionAttempt))}
      ensures !disabled && selected.None? ==> reconnectionTimer == None && !isReconnecting && ConnectionUnchanged()
      ensures !(!disabled && selected.Some? && connectOk) ==>
        reconnectionAttempt == if old(reconnectionTimer).Some? || old(isReconnecting) then 0 else old(reconnectionAttempt)
    {
      isChangingDevice := true;
      CancelReconnection();
      if disabled {
        if connectedDevice.Some? {
          var _ := Disconnect(disconnectOk);
        }
      } else if selected.Some? {
        ConnectOrRetry(selected.value, connectOk);
      }
      isChangingDevice := false;
    }

    /**
     * The watcher on the selected EML device, ignored while EML is
     * disabled: it cancels reconnection, shows CONNECTING for a new device,
     * drops a connected old device, then connects the new one (scheduling
     * a reconnection on failure) or stays DISCONNECTED without one.
     */
    method OnDeviceChange(disabled: bool, newDevice: Option<BluetoothDevice>, oldDeviceDefined: bool, disconnectOk: bool, connectOk: bool)
      requires Valid()
      modifies this`transportCreated, this`transportCalls, this`connectionState, this`connectedDevice, this`receivingBuffer
      modifies this`reconnectionAttempt, this`reconnectionTimer, this`pendingTimers, this`nextTimerId, this`isReconnecting
      modifies this`isChangingDevice
      ensures Valid() && isChangingDevice == (disabled && old(isChangingDevice))
      ensures disabled ==> TimersUnchanged() && ConnectionUnchanged() && receivingBuffer == old(receivingBuffer)
      ensures !disabled && newDevice.None? ==> connectionState == Disconnected && reconnectionTimer == None && !isReconnecting
      ensures !disabled && newDevice.Some? && connectOk ==>
        connectionState == Connecting && connectedDevice == newDevice && reconnectionTimer == None && reconnectionAttempt == 0
      ensures !disabled && newDevice.Some? && !connectOk ==>
        connectionState == Disconnected && isReconnecting
        && pendingTimers.Values == {Timer(newDevice.value, GetReconnectionDelay(reconnectionAttempt))}
      ensures !disabled && !(newDevice.Some? && connectOk) ==>
        connectedDevice == (if oldDeviceDefined then None else old(connectedDevice))
        && reconnectionAttempt == if old(reconnectionTimer).Some? || old(isReconnecting) then 0 else old(reconnectionAttempt)
    {
      if disabled {
        return;
      }
      isChangingDevice := true;
      CancelReconnection();
      SwitchDevice(newDevice, oldDeviceDefined, disconnectOk, connectOk);
      isChangingDevice := false;
    }

    /**
     * The device watcher once reconnection is cancelled: a new device shows
     * CONNECTING, a connected old device is dropped, then the new device is
     * connected (scheduling a reconnection on failure), or without one the
     * state is DISCONNECTED.
     */
    method SwitchDevice(newDevice: Option<BluetoothDevice>, oldDeviceDefined: bool, disconnectOk: bool, connectOk: bool)
      requires Valid() && reconnectionTimer == None && !isReconnecting
      modifies this`transportCreated, this`transportCalls, this`connectionState, this`connectedDevice, this`receivingBuffer
      modifies this`reconnectionAttempt, this`reconnectionTimer, this`pendingTimers, this`nextTimerId, this`isReconnecting
      ensures Valid()
      ensures newDevice.None? ==> connectionState == Disconnected && reconnectionTimer == None && !isReconnecting
      ensures newDevice.Some? && connectOk ==>
        connectionState == Connecting && connectedDevice == newDevice && reconnectionTimer == None && reconnectionAttempt == 0
      ensures newDevice.Some? && !connectOk ==>
        connectionState == Disconnected && isReconnecting
        && pendingTimers.Values == {Timer(newDevice.value, GetReconnectionDelay(reconnectionAttempt))}
      ensures !(newDevice.Some? && connectOk) ==>
        connectedDevice == (if oldDeviceDefined then None else old(connectedDevice))
        && reconnectionAttempt == old(reconnectionAttempt)
    {
      if newDevice.Some? {
        connectionState := Connecting;
      }
      if oldDeviceDefined && connectedDevice.Some? {
        var _ := Disconnect(disconnectOk);
      }
      if newDevice.Some? {
        ConnectOrRetry(newDevice.value, connectOk);
      } else {
        connectionState := Disconnected;
      }
    }

    /**
     * The watcher on the connection state: a reconnection is scheduled,
     * from attempt 0, exactly when the new state is DISCONNECTED, EML is
     * not disabled, a device is selected, no reconnection is in flight and
     * no device change is in progress.
     */
    method OnStateChange(newState: ConnectionState, disabled: bool, selected: Option<BluetoothDevice>)
      requires Valid()
      modifies this`reconnectionTimer, this`pendingTimers, this`nextTimerId, this`reconnectionAttempt, this`isReconnecting
      ensures Valid()
      ensures var fires := !disabled && newState == Disconnected && selected.Some? && !old(isReconnecting) && !isChangingDevice;
        (fires ==>
           reconnectionAttempt == 0 && isReconnecting
           && reconnectionTimer == Some(old(nextTimerId)) && nextTimerId == old(nextTimerId) + 1
           && pendingTimers == map[old(nextTimerId) := Timer(selected.value, GetReconnectionDelay(0))])
        && (!fires ==> TimersUnchanged())
    {
      if disabled {
        return;
      }
      if newState == Disconnected && selected.Some? && !isReconnecting && !isChangingDevice {
        reconnectionAttempt := 0;
        ScheduleReconnection(selected.value);
      }
    }

    /** `listAvailableDevices`: the transport is created if missing, and its list is returned. */
    method ListAvailableDevices(listed: Answer<seq<BluetoothDevice>>) returns (r: Answer<seq<BluetoothDevice>>)
      requires Valid()
      modifies this`transportCreated, this`transportCalls
      ensures Valid() && transportCreated
      ensures r == listed
      ensures transportCalls == old(transportCalls) + (if old(transportCreated) then [] else [CreateTransport]) + [ListDevices]
    {
      CreateTransportIfMissing();
      transportCalls := transportCalls + [ListDevices];
      r := listed;
    }

    // -------------------------------------------------------- subscribers

    /** `subscribeToData`, with the generated callback id as a parameter. */
    method SubscribeToData(id: string, throws: string -> bool, hasOnError: bool) returns (callbackId: string)
      requires Valid()
      modifies this`callbacks
      ensures Valid()
      ensures callbackId == id
      ensures callbacks == Put(old(callbacks), id, Listener(throws, hasOnError))
    {
      callbacks := Put(callbacks, id, Listener(throws, hasOnError));
      callbackId := id;
    }

    /** The returned unsubscribe function: removes that id and no other. */
    method Unsubscribe(callbackId: string)
      requires Valid()
      modifies this`callbacks
      ensures Valid()
      ensures callbacks == Remove(old(callbacks), callbackId)
    {
      callbacks := Remove(callbacks, callbackId);
      RemoveUnique(old(callbacks), callbackId);
    }
  }
}
