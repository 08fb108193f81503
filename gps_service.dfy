/**
 * The GPS lifecycle manager: connection state, capped back-off
 * reconnection with a single outstanding timer, the newline-framed receive
 * buffer, and fan-out of accepted fixes to subscribers.
 *
 * Each Vue watcher callback, each transport event and each timer firing is
 * one method, run to completion; what the transport or the settings store
 * answers is a parameter.
 */
module GpsService {
  import opened Text
  import opened Bluetooth
  import opened NmeaParser
  import opened Lifecycle

  /** The fix one framed sentence contributes: a GGA sentence that decodes with a valid fix and checksum; parse errors give none. */
  function Fix(sentence: string): Option<GgaData> {
    if !Includes(sentence, "GGA") then None
    else
      match ParseNmeaGga(sentence)
      case Ok(g) => if g.isValid && g.checksumValid then Some(g) else None
      case Err(_) => None
  }

  /** The fixes `handleDataReceived` distributes, in sentence order. */
  function Accepted(sentences: seq<string>): seq<GgaData> {
    FilterMap(sentences, Fix)
  }

  /** Every distributed fix is valid with a matching checksum, and is the decoding of one of the GGA sentences. */
  lemma AcceptedFrom(sentences: seq<string>, g: GgaData)
    requires g in Accepted(sentences)
    ensures g.isValid && g.checksumValid
    ensures exists i :: 0 <= i < |sentences| && Includes(sentences[i], "GGA") && ParseNmeaGga(sentences[i]) == Ok(g)
  {
    FilterMapFrom(sentences, Fix, g);
    var i :| 0 <= i < |sentences| && Fix(sentences[i]) == Some(g);
  }

  /** Conversely, every GGA sentence that decodes with a valid fix and checksum is distributed. */
  lemma AcceptedComplete(sentences: seq<string>, i: nat)
    requires i < |sentences| && Includes(sentences[i], "GGA")
    requires ParseNmeaGga(sentences[i]).Ok?
    requires ParseNmeaGga(sentences[i]).value.isValid && ParseNmeaGga(sentences[i]).value.checksumValid
    ensures ParseNmeaGga(sentences[i]).value in Accepted(sentences)
  {
    assert Fix(sentences[i]) == Some(ParseNmeaGga(sentences[i]).value);
    FilterMapComplete(sentences, Fix, i);
  }

  class Service {
    var reconnectionTimer: Option<nat>
    /** The browser's timer table, as far as this service arms timers: handle to timer. */
    var pendingTimers: map<nat, Timer>
    var nextTimerId: nat
    var reconnectionAttempt: nat
    var transportCreated: bool
    var transportCalls: seq<TransportCall>
    var isChangingDevice: bool
    var receivingBuffer: string
    var connectionState: ConnectionState
    var connectedDevice: Option<BluetoothDevice>
    var callbacks: Registry<GgaData>
    var deliveries: seq<Delivery<GgaData>>

    /** Handles are fresh, the buffer holds no complete line, and subscriber ids are unique. */
    ghost predicate Consistent()
      reads this
    {
      (forall t :: t in pendingTimers ==> t < nextTimerId)
      && '\n' !in receivingBuffer
      && UniqueIds(callbacks)
    }

    /** Moreover at most one reconnection timer is pending, and the handle names it. */
    ghost predicate Valid()
      reads this
    {
      Consistent()
      && (reconnectionTimer.None? ==> pendingTimers == map[])
      && (reconnectionTimer.Some? ==> pendingTimers.Keys == {reconnectionTimer.value})
    }

    twostate predicate TimersUnchanged()
      reads this
    {
      reconnectionTimer == old(reconnectionTimer) && pendingTimers == old(pendingTimers)
      && nextTimerId == old(nextTimerId) && reconnectionAttempt == old(reconnectionAttempt)
    }

    twostate predicate ConnectionUnchanged()
      reads this
    {
      connectionState == old(connectionState) && connectedDevice == old(connectedDevice)
      && transportCreated == old(transportCreated) && transportCalls == old(transportCalls)
    }

    twostate predicate StreamUnchanged()
      reads this
    {
      receivingBuffer == old(receivingBuffer) && callbacks == old(callbacks) && deliveries == old(deliveries)
    }

    constructor ()
      ensures Valid()
      ensures connectionState == Disconnected && connectedDevice == None
      ensures reconnectionTimer == None && reconnectionAttempt == 0 && !transportCreated
      ensures receivingBuffer == [] && callbacks == [] && deliveries == [] && transportCalls == []
    {
      reconnectionTimer := None;
      pendingTimers := map[];
      nextTimerId := 1;
      reconnectionAttempt := 0;
      transportCreated := false;
      transportCalls := [];
      isChangingDevice := false;
      receivingBuffer := [];
      connectionState := Disconnected;
      connectedDevice := None;
      callbacks := [];
      deliveries := [];
    }

    /** At most one reconnection timer is ever pending. */
    lemma AtMostOneTimer()
      requires Valid()
      ensures |pendingTimers| <= 1
    {
      if reconnectionTimer.Some? {
        assert pendingTimers.Keys == {reconnectionTimer.value};
      }
    }

    // ------------------------------------------------------------ data

    /** `distributeGpsData`: every subscriber, in registry order, gets the fix. */
    method DistributeGpsData(data: GgaData)
      modifies this`deliveries
      ensures deliveries == old(deliveries) + Deliver(callbacks, data)
    {
      for k := 0 to |callbacks|
        invariant deliveries == old(deliveries) + Deliver(callbacks[..k], data)
      {
        assert callbacks[..k + 1][..k] == callbacks[..k];
        deliveries := deliveries + [Outcome(callbacks[k], data)];
      }
      assert callbacks[..|callbacks|] == callbacks;
    }

    /** The loop of `handleDataReceived` over the framed sentences, in order. */
    method DistributeFixes(sentences: seq<string>)
      modifies this`deliveries
      ensures deliveries == old(deliveries) + DeliverAll(callbacks, Accepted(sentences))
    {
      for i := 0 to |sentences|
        invariant deliveries == old(deliveries) + DeliverAll(callbacks, Accepted(sentences[..i]))
      {
        ghost var done := DeliverAll(callbacks, Accepted(sentences[..i]));
        var found := Fix(sentences[i]);
        ghost var added := if found.Some? then Deliver(callbacks, found.value) else [];
        if found.Some? {
          DistributeGpsData(found.value);
        }
        assert deliveries == old(deliveries) + done + added;
        DeliverFilterMapStep(callbacks, sentences, Fix, i);
        AppendAssoc(old(deliveries), done, added);
      }
      assert sentences[..|sentences|] == sentences;
    }

    /**
     * `handleDataReceived`, for the text the decoder produced: the complete
     * lines are framed out of the buffer, the rest stays buffered, and the
     * accepted fixes go to every subscriber.
     */
    method HandleDataReceived(decoded: string)
      requires Valid()
      modifies this`receivingBuffer, this`deliveries
      ensures Valid()
      ensures receivingBuffer == Extract(old(receivingBuffer) + decoded).1
      ensures deliveries == old(deliveries) + DeliverAll(callbacks, Accepted(Extract(old(receivingBuffer) + decoded).0))
    {
      if decoded != [] {
        receivingBuffer := receivingBuffer + decoded;
      } else {
        assert receivingBuffer + decoded == receivingBuffer;
      }
      var sentences, remaining := ExtractNmeaSentences(receivingBuffer);
      receivingBuffer := remaining;
      DistributeFixes(sentences);
    }

    // -------------------------------------------------- transport events

    /** `handleConnect`: CONNECTED, and reading starts if a transport exists. */
    method HandleConnect()
      requires Valid()
      modifies this`connectionState, this`transportCalls
      ensures Valid()
      ensures connectionState == Connected
      ensures transportCalls == old(transportCalls) + if transportCreated then [StartReading] else []
    {
      connectionState := Connected;
      if transportCreated {
        transportCalls := transportCalls + [StartReading];
      }
    }

    /** `handleDisconnect`: the state changes only from CONNECTED. */
    method HandleDisconnect()
      requires Valid()
      modifies this`connectionState, this`connectedDevice
      ensures Valid()
      ensures old(connectionState) == Connected ==> connectionState == Disconnected && connectedDevice == None
      ensures old(connectionState) != Connected ==> connectionState == old(connectionState) && connectedDevice == old(connectedDevice)
    {
      if connectionState == Connected {
        connectionState := Disconnected;
        connectedDevice := None;
      }
    }

    /** `handleError`: always DISCONNECTED with no device. */
    method HandleError()
      requires Valid()
      modifies this`connectionState, this`connectedDevice
      ensures Valid()
      ensures connectionState == Disconnected && connectedDevice == None
    {
      connectionState := Disconnected;
      connectedDevice := None;
    }

    // ------------------------------------------------ connection management

    method CreateTransportIfMissing()
      modifies this`transportCreated, this`transportCalls
      ensures transportCreated
      ensures transportCalls == old(transportCalls) + if old(transportCreated) then [] else [CreateTransport]
    {
      if !transportCreated {
        transportCreated := true;
        transportCalls := transportCalls + [CreateTransport];
      }
    }

    /**
     * `connectToDevice`, where `transportOk` is whether the transport's
     * connect resolved: on success the device is recorded and the attempt
     * count reset; on failure the state is DISCONNECTED and the error is
     * passed on (`success` false).
     */
    method ConnectToDevice(device: BluetoothDevice, transportOk: bool) returns (success: bool)
      requires Valid()
      modifies this`transportCreated, this`transportCalls, this`connectionState, this`connectedDevice, this`reconnectionAttempt
      ensures Valid()
      ensures success == transportOk
      ensures transportCreated
      ensures transportCalls == old(transportCalls) + (if old(transportCreated) then [] else [CreateTransport]) + [ConnectTo(device)]
      ensures success ==> connectionState == Connecting && connectedDevice == Some(device) && reconnectionAttempt == 0
      ensures !success ==> connectionState == Disconnected && connectedDevice == old(connectedDevice)
      ensures !success ==> reconnectionAttempt == old(reconnectionAttempt)
    {
      CreateTransportIfMissing();
      connectionState := Connecting;
      transportCalls := transportCalls + [ConnectTo(device)];
      if transportOk {
        connectedDevice := Some(device);
        reconnectionAttempt := 0;
        success := true;
      } else {
        connectionState := Disconnected;
        success := false;
      }
    }

    /**
     * `disconnect`, where `transportOk` is whether the transport's
     * disconnect resolved: the state always ends DISCONNECTED with no
     * device; the buffer is cleared only when the disconnect succeeded.
     */
    method Disconnect(transportOk: bool) returns (success: bool)
      requires Valid()
      modifies this`transportCalls, this`receivingBuffer, this`connectionState, this`connectedDevice
      ensures Valid()
      ensures success == (!transportCreated || transportOk)
      ensures transportCalls == old(transportCalls) + if transportCreated then [DisconnectTransport] else []
      ensures connectionState == Disconnected && connectedDevice == None
      ensures receivingBuffer == if success then [] else old(receivingBuffer)
    {
      success := true;
      if transportCreated {
        transportCalls := transportCalls + [DisconnectTransport];
        success := transportOk;
      }
      if success {
        receivingBuffer := [];
      }
      connectionState := Disconnected;
      connectedDevice := None;
    }

    // ------------------------------------------------------ reconnection

    /** `cancelReconnection`: a pending timer is cleared and the attempt count reset; with none, nothing changes. */
    method CancelReconnection()
      requires Valid()
      modifies this`reconnectionTimer, this`pendingTimers, this`reconnectionAttempt
      ensures Valid()
      ensures reconnectionTimer == None && pendingTimers == map[]
      ensures old(reconnectionTimer).Some? ==> reconnectionAttempt == 0
      ensures old(reconnectionTimer).None? ==> reconnectionAttempt == old(reconnectionAttempt)
    {
      if reconnectionTimer.Some? {
        pendingTimers := pendingTimers - {reconnectionTimer.value};
        reconnectionTimer := None;
        reconnectionAttempt := 0;
      }
    }

    /**
     * `scheduleReconnection`: arms a timer for the device with the delay of
     * the current attempt and keeps its handle, overwriting any previous
     * handle without clearing that timer.
     */
    method ScheduleReconnection(device: BluetoothDevice)
      requires Consistent()
      modifies this`reconnectionTimer, this`pendingTimers, this`nextTimerId
      ensures Consistent()
      ensures reconnectionTimer == Some(old(nextTimerId)) && nextTimerId == old(nextTimerId) + 1
      ensures pendingTimers == old(pendingTimers)[old(nextTimerId) := Timer(device, GetReconnectionDelay(reconnectionAttempt))]
      ensures old(pendingTimers) == map[] ==> Valid()
    {
      var delay := GetReconnectionDelay(reconnectionAttempt);
      var t := nextTimerId;
      nextTimerId := nextTimerId + 1;
      pendingTimers := pendingTimers[t := Timer(device, delay)];
      reconnectionTimer := Some(t);
    }

    /**
     * `connectToDevice` followed by the `catch` of its callers in the
     * watchers and the timer: a failure schedules a reconnection to the
     * same device.
     */
    method ConnectOrRetry(device: BluetoothDevice, transportOk: bool)
      requires Valid() && reconnectionTimer == None
      modifies this`transportCreated, this`transportCalls, this`connectionState, this`connectedDevice
      modifies this`reconnectionAttempt, this`reconnectionTimer, this`pendingTimers, this`nextTimerId
      ensures Valid()
      ensures transportCreated
      ensures transportCalls == old(transportCalls) + (if old(transportCreated) then [] else [CreateTransport]) + [ConnectTo(device)]
      ensures transportOk ==>
        connectionState == Connecting && connectedDevice == Some(device) && reconnectionAttempt == 0 && reconnectionTimer == None
      ensures !transportOk ==>
        connectionState == Disconnected && connectedDevice == old(connectedDevice) && reconnectionAttempt == old(reconnectionAttempt)
      ensures !transportOk ==>
        reconnectionTimer.Some? && pendingTimers.Values == {Timer(device, GetReconnectionDelay(reconnectionAttempt))}
    {
      var success := ConnectToDevice(device, transportOk);
      if !success {
        ScheduleReconnection(device);
        OnlyTimer();
      }
    }

    /**
     * The reconnection timer `t` fires: its handle is cleared, the attempt
     * count goes up, the captured device is connected, and a failure
     * schedules the next attempt with the next delay.
     */
    method FireReconnectionTimer(t: nat, transportOk: bool)
      requires Valid() && t in pendingTimers
      modifies this`transportCreated, this`transportCalls, this`connectionState, this`connectedDevice
      modifies this`reconnectionAttempt, this`reconnectionTimer, this`pendingTimers, this`nextTimerId
      ensures Valid()
      ensures transportOk ==> reconnectionTimer == None && reconnectionAttempt == 0
      ensures transportOk ==> connectionState == Connecting && connectedDevice == Some(old(pendingTimers[t].device))
      ensures !transportOk ==> reconnectionAttempt == old(reconnectionAttempt) + 1 && connectionState == Disconnected
      ensures !transportOk ==> pendingTimers.Values == {Timer(old(pendingTimers[t].device), GetReconnectionDelay(old(reconnectionAttempt) + 1))}
    {
      var timer := pendingTimers[t];
      pendingTimers := pendingTimers - {t};
      reconnectionTimer := None;
      reconnectionAttempt := reconnectionAttempt + 1;
      ConnectOrRetry(timer.device, transportOk);
    }

    /**
     * The timer's failure path in the order the browser runs it: the
     * rejected connect sets DISCONNECTED, the connection-state watcher runs
     * before the callback's `catch` resumes, finds no handle, resets the
     * attempt count and schedules a timer; the `catch` then schedules
     * another and overwrites the handle. Two timers are left pending, both
     * with the first delay.
     */
    method FireReconnectionTimerInterleaved(t: nat, transportOk: bool, disabled: bool, selected: Option<BluetoothDevice>)
      requires Valid() && t in pendingTimers
      modifies this`transportCreated, this`transportCalls, this`connectionState, this`connectedDevice
      modifies this`reconnectionAttempt, this`reconnectionTimer, this`pendingTimers, this`nextTimerId
      ensures Consistent()
      ensures transportOk ==> Valid() && reconnectionTimer == None && reconnectionAttempt == 0
      ensures !transportOk && !disabled && selected.Some? && !isChangingDevice ==>
        reconnectionAttempt == 0
        && reconnectionTimer == Some(old(nextTimerId) + 1)
        && pendingTimers == map[
          old(nextTimerId) := Timer(selected.value, GetReconnectionDelay(0)),
          old(nextTimerId) + 1 := Timer(old(pendingTimers[t].device), GetReconnectionDelay(0))]
    {
      var timer := pendingTimers[t];
      pendingTimers := pendingTimers - {t};
      reconnectionTimer := None;
      reconnectionAttempt := reconnectionAttempt + 1;
      var success := ConnectToDevice(timer.device, transportOk);
      if !success {
        OnStateChange(Disconnected, disabled, selected);
        ScheduleReconnection(timer.device);
      }
    }

    // ----------------------------------------------------------- watchers

    /**
     * The watcher on the GPS connection type: any pending reconnection is
     * cancelled; disabling disconnects a connected device; otherwise the
     * selected device, if any, is connected, and a failure schedules a
     * reconnection.
     */
    method OnConnectionTypeChange(disabled: bool, selected: Option<BluetoothDevice>, disconnectOk: bool, connectOk: bool)
      requires Valid()
      modifies this`transportCreated, this`transportCalls, this`connectionState, this`connectedDevice, this`receivingBuffer
      modifies this`reconnectionAttempt, this`reconnectionTimer, this`pendingTimers, this`nextTimerId, this`isChangingDevice
      ensures Valid() && !isChangingDevice
      ensures disabled && old(connectedDevice).Some? ==> connectionState == Disconnected && connectedDevice == None
      ensures disabled && old(connectedDevice).None? ==> ConnectionUnchanged()
      ensures disabled ==> reconnectionTimer == None
      ensures !disabled && selected.Some? && connectOk ==>
        connectionState == Connecting && connectedDevice == selected && reconnectionTimer == None && reconnectionAttempt == 0
      ensures !disabled && selected.Some? && !connectOk ==>
        connectionState == Disconnected && connectedDevice == old(connectedDevice)
        && pendingTimers.Values == {Timer(selected.value, GetReconnectionDelay(reconnectionAttempt))}
      ensures !disabled && selected.None? ==> reconnectionTimer == None && ConnectionUnchanged()
      ensures !(!disabled && selected.Some? && connectOk) ==>
        reconnectionAttempt == if old(reconnectionTimer).Some? then 0 else old(reconnectionAttempt)
    {
      isChangingDevice := true;
      CancelReconnection();
      if disabled {
        if connectedDevice.Some? {
          var _ := Disconnect(disconnectOk);
        }
      } else if selected.Some? {
        ConnectOrRetry(selected.value, connectOk);
      }
      isChangingDevice := false;
    }

    /**
     * The watcher on the selected GPS device, ignored while GPS is disabled:
     * it cancels reconnection, shows CONNECTING for a new device, drops a
     * connected old device, then connects the new one (scheduling a
     * reconnection on failure) or stays DISCONNECTED without one.
     */
    method OnDeviceChange(disabled: bool, newDevice: Option<BluetoothDevice>, oldDeviceDefined: bool, disconnectOk: bool, connectOk: bool)
      requires Valid()
      modifies this`transportCreated, this`transportCalls, this`connectionState, this`connectedDevice, this`receivingBuffer
      modifies this`reconnectionAttempt, this`reconnectionTimer, this`pendingTimers, this`nextTimerId, this`isChangingDevice
      ensures Valid() && isChangingDevice == (disabled && old(isChangingDevice))
      ensures disabled ==> TimersUnchanged() && ConnectionUnchanged() && receivingBuffer == old(receivingBuffer)
      ensures !disabled && newDevice.None? ==> connectionState == Disconnected && reconnectionTimer == None
      ensures !disabled && newDevice.Some? && connectOk ==>
        connectionState == Connecting && connectedDevice == newDevice && reconnectionTimer == None && reconnectionAttempt == 0
      ensures !disabled && newDevice.Some? && !connectOk ==>
        connectionState == Disconnected && pendingTimers.Values == {Timer(newDevice.value, GetReconnectionDelay(reconnectionAttempt))}
      ensures !disabled && !(newDevice.Some? && connectOk) ==>
        connectedDevice == (if oldDeviceDefined then None else old(connectedDevice))
        && reconnectionAttempt == if old(reconnectionTimer).Some? then 0 else old(reconnectionAttempt)
    {
      if disabled {
        return;
      }
      isChangingDevice := true;
      CancelReconnection();
      SwitchDevice(newDevice, oldDeviceDefined, disconnectOk, connectOk);
      isChangingDevice := false;
    }

    /**
     * The device watcher once reconnection is cancelled: a new device shows
     * CONNECTING, a connected old device is dropped, then the new device is
     * connected (scheduling a reconnection on failure), or without one the
     * state is DISCONNECTED.
     */
    method SwitchDevice(newDevice: Option<BluetoothDevice>, oldDeviceDefined: bool, disconnectOk: bool, connectOk: bool)
      requires Valid() && reconnectionTimer == None
      modifies this`transportCreated, this`transportCalls, this`connectionState, this`connectedDevice, this`receivingBuffer
      modifies this`reconnectionAttempt, this`reconnectionTimer, this`pendingTimers, this`nextTimerId
      ensures Valid()
      ensures newDevice.None? ==> connectionState == Disconnected && reconnectionTimer == None
      ensures newDevice.Some? && connectOk ==>
        connectionState == Connecting && connectedDevice == newDevice && reconnectionTimer == None && reconnectionAttempt == 0
      ensures newDevice.Some? && !connectOk ==>
        connectionState == Disconnected
        && pendingTimers.Values == {Timer(newDevice.value, GetReconnectionDelay(reconnectionAttempt))}
      ensures !(newDevice.Some? && connectOk) ==>
        connectedDevice == (if oldDeviceDefined then None else old(connectedDevice))
        && reconnectionAttempt == old(reconnectionAttempt)
    {
      if newDevice.Some? {
        connectionState := Connecting;
      }
      if oldDeviceDefined && connectedDevice.Some? {
        var _ := Disconnect(disconnectOk);
      }
      if newDevice.Some? {
        ConnectOrRetry(newDevice.value, connectOk);
      } else {
        connectionState := Disconnected;
      }
    }

    /**
     * The watcher on the connection state: a reconnection is scheduled,
     * from attempt 0, exactly when the new state is DISCONNECTED, GPS is
     * not disabled, a device is selected, no timer is pending and no device
     * change is in progress.
     */
    method OnStateChange(newState: ConnectionState, disabled: bool, selected: Option<BluetoothDevice>)
      requires Valid()
      modifies this`reconnectionTimer, this`pendingTimers, this`nextTimerId, this`reconnectionAttempt
      ensures Valid()
      ensures var fires := !disabled && newState == Disconnected && selected.Some? && old(reconnectionTimer).None? && !isChangingDevice;
        (fires ==>
           reconnectionAttempt == 0 && reconnectionTimer == Some(old(nextTimerId)) && nextTimerId == old(nextTimerId) + 1
           && pendingTimers == map[old(nextTimerId) := Timer(selected.value, GetReconnectionDelay(0))])
        && (!fires ==> TimersUnchanged())
    {
      if disabled {
        return;
      }
      if newState == Disconnected && selected.Some? && reconnectionTimer.None? && !isChangingDevice {
        reconnectionAttempt := 0;
        ScheduleReconnection(selected.value);
      }
    }

    /** With the handle set and the table holding just that timer, its values are that one timer. */
    lemma OnlyTimer()
      requires Valid() && reconnectionTimer.Some?
      ensures pendingTimers.Values == {pendingTimers[reconnectionTimer.value]}
    {
      var u := reconnectionTimer.value;
      assert u in pendingTimers;
      forall v | v in pendingTimers.Values ensures v == pendingTimers[u] {
        var w :| w in pendingTimers && pendingTimers[w] == v;
      }
    }

    /** `listAvailableDevices`: the transport is created if missing, and its list is returned. */
    method ListAvailableDevices(listed: Answer<seq<BluetoothDevice>>) returns (r: Answer<seq<BluetoothDevice>>)
      requires Valid()
      modifies this`transportCreated, this`transportCalls
      ensures Valid() && transportCreated
      ensures r == listed
      ensures transportCalls == old(transportCalls) + (if old(transportCreated) then [] else [CreateTransport]) + [ListDevices]
    {
      CreateTransportIfMissing();
      transportCalls := transportCalls + [ListDevices];
      r := listed;
    }

    // -------------------------------------------------------- subscribers

    /** `subscribeToLocationData`, with the generated callback id as a parameter. */
    method SubscribeToLocationData(id: string, throws: GgaData -> bool, hasOnError: bool) returns (callbackId: string)
      requires Valid()
      modifies this`callbacks
      ensures Valid()
      ensures callbackId == id
      ensures callbacks == Put(old(callbacks), id, Listener(throws, hasOnError))
    {
      callbacks := Put(callbacks, id, Listener(throws, hasOnError));
      callbackId := id;
    }

    /** The returned unsubscribe function: removes that id and no other. */
    method Unsubscribe(callbackId: string)
      requires Valid()
      modifies this`callbacks
      ensures Valid()
      ensures callbacks == Remove(old(callbacks), callbackId)
    {
      callbacks := Remove(callbacks, callbackId);
      RemoveUnique(old(callbacks), callbackId);
    }
  }
}
