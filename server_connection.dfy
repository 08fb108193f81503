/**
 * The Bluetooth server connection, which listens for the locator to connect
 * to the phone or connects to it as a client: its running and client
 * flags, one-time adapter initialisation, the idempotent data listener,
 * the single 500 ms message-complete timer and the guarded server restart.
 *
 * What the communication plugin answers is a parameter, and every plugin
 * call is recorded in order. The listener's data events, the timer's firing
 * and the end of the asynchronous restart are methods of their own.
 */
module ServerConnection {
  import opened Text
  import opened Bluetooth

  const NotConnected := "Not connected"

  datatype PluginCall =
    | Initialize | EnableBluetooth
    | AddDataListener | AddConnectionListener | RemoveDataListener | RemoveConnectionListener
    | StartListening | StopListening | ConnectTo(address: string) | DisconnectClient
    | SendData(text: string) | ScanDevices

  /** A paired device as `scanDevices` lists it. */
  datatype PairedDevice = PairedDevice(name: Option<string>, address: string)

  /** The listed form of a paired device: its address is its id, and an empty name is no name. */
  function ToBluetoothDevice(d: PairedDevice): (r: BluetoothDevice)
    ensures r.id == d.address && r.address == Some(d.address)
    ensures r.name.Some? <==> d.name.Some? && d.name.value != []
    ensures r.name.Some? ==> r.name == d.name
  {
    BluetoothDevice(d.address, if d.name.Some? && d.name.value != [] then d.name else None, Some(d.address))
  }

  function MapDevices(ds: seq<PairedDevice>): (r: seq<BluetoothDevice>)
    ensures |r| == |ds|
    ensures forall i :: 0 <= i < |ds| ==> r[i] == ToBluetoothDevice(ds[i])
  {
    if ds == [] then [] else [ToBluetoothDevice(ds[0])] + MapDevices(ds[1..])
  }

  class Connection {
    var isServerRunning: bool
    var isConnectedAsClient: bool
    var hasDataListener: bool
    var hasConnectionListener: bool
    var initialized: bool
    var dataReceivedCount: nat
    var isRestarting: bool
    var messageCompleteTimer: Option<nat>
    /** The timers the browser still holds, by handle. */
    var pendingTimers: set<nat>
    var nextTimerId: nat
    /** The option callbacks fired so far, oldest first. */
    var events: seq<ConnEvent>
    /** The plugin calls made so far, oldest first. */
    var calls: seq<PluginCall>

    /** At most one message-complete timer is pending, and it is the one the handle names. */
    predicate Valid()
      reads this
    {
      (messageCompleteTimer.None? ==> pendingTimers == {})
      && (messageCompleteTimer.Some? ==> pendingTimers == {messageCompleteTimer.value})
      && (forall t :: t in pendingTimers ==> t < nextTimerId)
    }

    constructor()
      ensures Valid()
      ensures !isServerRunning && !isConnectedAsClient && !hasDataListener && !hasConnectionListener
      ensures !initialized && !isRestarting && messageCompleteTimer == None && dataReceivedCount == 0
      ensures events == [] && calls == []
    {
      isServerRunning := false;
      isConnectedAsClient := false;
      hasDataListener := false;
      hasConnectionListener := false;
      initialized := false;
      dataReceivedCount := 0;
      isRestarting := false;
      messageCompleteTimer := None;
      pendingTimers := {};
      nextTimerId := 1;
      events := [];
      calls := [];
    }

    /**
     * `ensureInitialized`: once initialised, nothing is called again.
     * Otherwise the adapter is initialised, then Bluetooth enabled, and
     * the flag is set only when both succeed; an error is rethrown.
     */
    method EnsureInitialized(init: Status, enable: Status) returns (r: Status)
      modifies this`initialized, this`calls
      ensures old(initialized) ==> r == Done && initialized && calls == old(calls)
      ensures !old(initialized) ==>
        r == (if init.Failed? then init else enable)
        && initialized == r.Done?
        && calls == old(calls) + (if init.Failed? then [Initialize] else [Initialize, EnableBluetooth])
    {
      if initialized {
        return Done;
      }
      calls := calls + [Initialize];
      if init.Failed? {
        return init;
      }
      calls := calls + [EnableBluetooth];
      if enable.Failed? {
        return enable;
      }
      initialized := true;
      r := Done;
    }

    /** `setupDataListener`: a no-op when a data listener exists; the connection-state listener is optional. */
    method SetupDataListener(connectionListenerAdded: bool)
      modifies this`hasDataListener, this`hasConnectionListener, this`calls
      ensures hasDataListener
      ensures old(hasDataListener) ==> hasConnectionListener == old(hasConnectionListener) && calls == old(calls)
      ensures !old(hasDataListener) ==>
        hasConnectionListener == (old(hasConnectionListener) || connectionListenerAdded)
        && calls == old(calls) + [AddDataListener, AddConnectionListener]
    {
      if hasDataListener {
        return;
      }
      calls := calls + [AddDataListener];
      hasDataListener := true;
      calls := calls + [AddConnectionListener];
      if connectionListenerAdded {
        hasConnectionListener := true;
      }
    }

    /** `removeDataListener`: removes whichever listeners exist. */
    method RemoveListeners()
      modifies this`hasDataListener, this`hasConnectionListener, this`calls
      ensures !hasDataListener && !hasConnectionListener
      ensures calls == old(calls) + (if old(hasDataListener) then [RemoveDataListener] else [])
        + (if old(hasConnectionListener) then [RemoveConnectionListener] else [])
    {
      if hasDataListener {
        calls := calls + [RemoveDataListener];
        hasDataListener := false;
      }
      if hasConnectionListener {
        calls := calls + [RemoveConnectionListener];
        hasConnectionListener := false;
      }
    }

    /**
     * `startServer`: initialise, set up the listener, start listening;
     * success sets the running flag and fires `onConnect`, a failure fires
     * `onError` with the error and rethrows it.
     */
    method StartServer(init: Status, enable: Status, connectionListenerAdded: bool, started: Status) returns (r: Status)
      modifies this`initialized, this`hasDataListener, this`hasConnectionListener, this`isServerRunning
      modifies this`events, this`calls
      ensures var ready := if old(initialized) then Done else if init.Failed? then init else enable;
        r == (if ready.Failed? then ready else started)
      ensures r.Done? ==> isServerRunning && initialized && hasDataListener && events == old(events) + [OnConnect]
      ensures r.Failed? ==> isServerRunning == old(isServerRunning) && events == old(events) + [OnError(r.message)]
    {
      r := EnsureInitialized(init, enable);
      if r.Done? {
        SetupDataListener(connectionListenerAdded);
        calls := calls + [StartListening];
        r := started;
        if r.Done? {
          isServerRunning := true;
          events := events + [OnConnect];
          return;
        }
      }
      events := events + [OnError(r.message)];
    }

    /**
     * `stopServer`: a no-op when not running. Otherwise the pending timer is
     * cleared, then the server stopped; only a successful stop clears the
     * running flag, removes the listeners and fires `onDisconnect`. Errors
     * are swallowed.
     */
    method StopServer(stopped: Status)
      requires Valid()
      modifies this`messageCompleteTimer, this`pendingTimers, this`isServerRunning
      modifies this`hasDataListener, this`hasConnectionListener, this`events, this`calls
      ensures Valid()
      ensures !old(isServerRunning) ==> unchanged(this)
      ensures old(isServerRunning) ==> messageCompleteTimer == None && pendingTimers == {}
      ensures old(isServerRunning) && stopped.Done? ==>
        !isServerRunning && !hasDataListener && !hasConnectionListener && events == old(events) + [OnDisconnect]
      ensures old(isServerRunning) && stopped.Failed? ==>
        isServerRunning && unchanged(this`hasDataListener, this`hasConnectionListener) && events == old(events)
    {
      if !isServerRunning {
        return;
      }
      if messageCompleteTimer.Some? {
        pendingTimers := pendingTimers - {messageCompleteTimer.value};
        messageCompleteTimer := None;
      }
      calls := calls + [StopListening];
      if stopped.Failed? {
        return;
      }
      isServerRunning := false;
      RemoveListeners();
      events := events + [OnDisconnect];
    }

    /** `connect` as a client: the same initialisation and listener set-up, then the plugin connect. */
    method Connect(deviceId: string, init: Status, enable: Status, connectionListenerAdded: bool, connected: Status)
      returns (r: Status)
      modifies this`initialized, this`hasDataListener, this`hasConnectionListener, this`isConnectedAsClient
      modifies this`events, this`calls
      ensures var ready := if old(initialized) then Done else if init.Failed? then init else enable;
        r == (if ready.Failed? then ready else connected)
      ensures r.Done? ==> isConnectedAsClient && initialized && hasDataListener && events == old(events) + [OnConnect]
      ensures r.Done? ==> calls != [] && calls[|calls| - 1] == ConnectTo(deviceId)
      ensures r.Failed? ==> isConnectedAsClient == old(isConnectedAsClient) && events == old(events) + [OnError(r.message)]
    {
      r := EnsureInitialized(init, enable);
      if r.Done? {
        SetupDataListener(connectionListenerAdded);
        calls := calls + [ConnectTo(deviceId)];
        r := connected;
        if r.Done? {
          isConnectedAsClient := true;
          events := events + [OnConnect];
          return;
        }
      }
      events := events + [OnError(r.message)];
    }

    /**
     * `disconnect`: stops a running server, disconnects a client, removes
     * the listeners and fires `onDisconnect`, so a server that stops fires
     * it twice. A client disconnect error ends it early; errors are logged,
     * never thrown.
     */
    method Disconnect(stopped: Status, clientDisconnected: Status)
      requires Valid()
      modifies this`messageCompleteTimer, this`pendingTimers, this`isServerRunning, this`isConnectedAsClient
      modifies this`hasDataListener, this`hasConnectionListener, this`events, this`calls
      ensures Valid()
      ensures old(isServerRunning) ==> messageCompleteTimer == None
      ensures isServerRunning == (old(isServerRunning) && stopped.Failed?)
      ensures old(isConnectedAsClient) && clientDisconnected.Failed? ==>
        isConnectedAsClient && events == old(events) + (if old(isServerRunning) && stopped.Done? then [OnDisconnect] else [])
      ensures !(old(isConnectedAsClient) && clientDisconnected.Failed?) ==>
        !isConnectedAsClient && !hasDataListener && !hasConnectionListener
        && events == old(events) + (if old(isServerRunning) && stopped.Done? then [OnDisconnect, OnDisconnect] else [OnDisconnect])
    {
      if isServerRunning {
        StopServer(stopped);
      }
      if isConnectedAsClient {
        calls := calls + [DisconnectClient];
        if clientDisconnected.Failed? {
          return;
        }
        isConnectedAsClient := false;
      }
      RemoveListeners();
      events := events + [OnDisconnect];
    }

    /** `send`: refused unless a server runs or a client is connected; the decoded text goes to the plugin. */
    method Send(data: seq<byte>, decode: seq<byte> -> string, sent: Status) returns (r: Status)
      modifies this`calls
      ensures !isServerRunning && !isConnectedAsClient ==> r == Failed(NotConnected) && calls == old(calls)
      ensures isServerRunning || isConnectedAsClient ==> r == sent && calls == old(calls) + [SendData(decode(data))]
    {
      if !isServerRunning && !isConnectedAsClient {
        return Failed(NotConnected);
      }
      calls := calls + [SendData(decode(data))];
      r := sent;
    }

    /** `listAvailableDevices`: after initialisation, the paired devices keyed by address. */
    method ListAvailableDevices(init: Status, enable: Status, scanned: Answer<seq<PairedDevice>>)
      returns (r: Answer<seq<BluetoothDevice>>)
      modifies this`initialized, this`calls
      ensures var ready := if old(initialized) then Done else if init.Failed? then init else enable;
        (ready.Failed? ==> r == Rejected(ready.message))
        && (ready.Done? && scanned.Rejected? ==> r == Rejected(scanned.message))
        && (ready.Done? && scanned.Value? ==> r == Value(MapDevices(scanned.value)))
    {
      var ready := EnsureInitialized(init, enable);
      if ready.Failed? {
        return Rejected(ready.message);
      }
      calls := calls + [ScanDevices];
      match scanned
      case Rejected(message) => r := Rejected(message);
      case Value(devices) => r := Value(MapDevices(devices));
    }

    /**
     * The data listener: one more chunk counted, its encoding goes to
     * `onData`, and the message-complete timer is re-armed.
     */
    method DataReceived(text: string, encode: string -> seq<byte>)
      requires Valid() && hasDataListener
      modifies this`dataReceivedCount, this`events, this`messageCompleteTimer, this`pendingTimers, this`nextTimerId
      ensures Valid()
      ensures dataReceivedCount == old(dataReceivedCount) + 1
      ensures events == old(events) + [OnData(encode(text))]
      ensures messageCompleteTimer == Some(old(nextTimerId)) && pendingTimers == {old(nextTimerId)}
    {
      dataReceivedCount := dataReceivedCount + 1;
      events := events + [OnData(encode(text))];
      ScheduleMessageComplete();
    }

    /** `scheduleMessageComplete`: the pending timer, if any, is cleared before a new one is armed. */
    method ScheduleMessageComplete()
      requires Valid()
      modifies this`messageCompleteTimer, this`pendingTimers, this`nextTimerId
      ensures Valid()
      ensures messageCompleteTimer == Some(old(nextTimerId)) && nextTimerId == old(nextTimerId) + 1
      ensures pendingTimers == {old(nextTimerId)}
    {
      if messageCompleteTimer.Some? {
        pendingTimers := pendingTimers - {messageCompleteTimer.value};
      }
      messageCompleteTimer := Some(nextTimerId);
      pendingTimers := pendingTimers + {nextTimerId};
      nextTimerId := nextTimerId + 1;
    }

    /** The message-complete timer fires: its handle is cleared and a restart is requested. */
    method MessageCompleteFires(t: nat)
      requires Valid() && t in pendingTimers
      modifies this`messageCompleteTimer, this`pendingTimers, this`isRestarting
      ensures Valid() && messageCompleteTimer == None && pendingTimers == {}
      ensures isRestarting == (old(isRestarting) || isServerRunning)
    {
      pendingTimers := pendingTimers - {t};
      messageCompleteTimer := None;
      RestartServer();
    }

    /** `restartServer`: nothing while a restart is in progress or the server is not running; otherwise a restart begins. */
    method RestartServer()
      modifies this`isRestarting
      ensures isRestarting == (old(isRestarting) || isServerRunning)
    {
      if isRestarting {
        return;
      }
      if !isServerRunning {
        return;
      }
      isRestarting := true;
    }

    /**
     * The asynchronous restart runs to its end: the server is stopped (an
     * error is ignored) and started again, and the restart flag is reset
     * whether the start succeeds or fails.
     */
    method RestartCompletes(stopped: Status, started: Status)
      requires isRestarting
      modifies this`isRestarting, this`calls
      ensures !isRestarting && calls == old(calls) + [StopListening, StartListening]
    {
      calls := calls + [StopListening];
      calls := calls + [StartListening];
      isRestarting := false;
    }
  }
}
