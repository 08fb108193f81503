/**
 * The classic-Bluetooth serial (SPP) connection: the connected flag and
 * device id, the raw-data subscription flag, and the merged device list.
 *
 * What the serial-port plugin answers (Bluetooth enabled, each callback's
 * success or error) is a parameter; a callback the plugin invokes later
 * (a data chunk, a subscription error) is a method of its own.
 */
module SppConnection {
  import opened Text
  import opened Bluetooth

  const NotEnabled := "Bluetooth is not enabled"
  const SendWhileDisconnected := "Cannot send data: Bluetooth not connected"
  const ReadWhileDisconnected := "Cannot read: Bluetooth not connected"

  /** A device as the serial-port plugin lists it. */
  datatype ClassicDevice = ClassicDevice(id: string, name: Option<string>, address: string)

  /** The listed form of a plugin device: its id, or its address when the id is empty. */
  function ToBluetoothDevice(d: ClassicDevice): (r: BluetoothDevice)
    ensures r.id == (if d.id != [] then d.id else d.address)
    ensures r.name == d.name && r.address == Some(d.address)
  {
    BluetoothDevice(if d.id != [] then d.id else d.address, d.name, Some(d.address))
  }

  function MapDevices(ds: seq<ClassicDevice>): (r: seq<BluetoothDevice>)
    ensures |r| == |ds|
    ensures forall i :: 0 <= i < |ds| ==> r[i] == ToBluetoothDevice(ds[i])
  {
    if ds == [] then [] else [ToBluetoothDevice(ds[0])] + MapDevices(ds[1..])
  }

  /**
   * `listAvailableDevices`: fails when Bluetooth is off or either listing
   * fails; otherwise the paired devices, then the unpaired ones, each in
   * its listed form.
   */
  function ListAvailableDevices(enabled: bool, paired: Answer<seq<ClassicDevice>>, unpaired: Answer<seq<ClassicDevice>>)
    : (r: Answer<seq<BluetoothDevice>>)
    ensures !enabled ==> r == Rejected(NotEnabled)
    ensures enabled && paired.Rejected? ==> r == Rejected(paired.message)
    ensures enabled && paired.Value? && unpaired.Rejected? ==> r == Rejected(unpaired.message)
    ensures r.Value? <==> enabled && paired.Value? && unpaired.Value?
    ensures r.Value? ==>
      |r.value| == |paired.value| + |unpaired.value|
      && (forall i :: 0 <= i < |paired.value| ==> r.value[i] == ToBluetoothDevice(paired.value[i]))
      && (forall i :: 0 <= i < |unpaired.value| ==> r.value[|paired.value| + i] == ToBluetoothDevice(unpaired.value[i]))
  {
    if !enabled then Rejected(NotEnabled)
    else if paired.Rejected? then Rejected(paired.message)
    else if unpaired.Rejected? then Rejected(unpaired.message)
    else Value(MapDevices(paired.value + unpaired.value))
  }

  class Connection {
    var isConnected: bool
    var connectedDeviceId: Option<string>
    var isSubscribedToData: bool
    /** The option callbacks fired so far, oldest first. */
    var events: seq<ConnEvent>

    /** The connected flag and the device id are set and cleared together. */
    predicate Valid()
      reads this
    {
      isConnected <==> connectedDeviceId.Some?
    }

    /** `isConnected && connectedDeviceId`: an empty id is falsy. */
    predicate Ready()
      reads this
    {
      isConnected && connectedDeviceId.Some? && connectedDeviceId.value != []
    }

    constructor()
      ensures Valid()
      ensures !isConnected && connectedDeviceId == None && !isSubscribedToData && events == []
    {
      isConnected := false;
      connectedDeviceId := None;
      isSubscribedToData := false;
      events := [];
    }

    /**
     * `connect`: with Bluetooth off, `onError` fires twice (once before the
     * throw, once in the catch) and the state is cleared; otherwise the
     * plugin's answer decides: connected to that id with `onConnect`, or
     * cleared with `onError` and the plugin's error.
     */
    method Connect(deviceId: string, enabled: bool, answer: Status) returns (r: Status)
      modifies this`isConnected, this`connectedDeviceId, this`events
      ensures Valid()
      ensures r.Done? <==> enabled && answer.Done?
      ensures r.Done? ==> isConnected && connectedDeviceId == Some(deviceId) && events == old(events) + [OnConnect]
      ensures !enabled ==>
        r == Failed(NotEnabled) && !isConnected && connectedDeviceId == None
        && events == old(events) + [OnError(NotEnabled), OnError(NotEnabled)]
      ensures enabled && answer.Failed? ==>
        r == answer && !isConnected && connectedDeviceId == None
        && events == old(events) + [OnError(answer.message)]
    {
      if !enabled {
        events := events + [OnError(NotEnabled)];
        isConnected := false;
        connectedDeviceId := None;
        events := events + [OnError(NotEnabled)];
        return Failed(NotEnabled);
      }
      match answer
      case Done =>
        isConnected := true;
        connectedDeviceId := Some(deviceId);
        events := events + [OnConnect];
        r := Done;
      case Failed(message) =>
        isConnected := false;
        connectedDeviceId := None;
        events := events + [OnError(message)];
        r := answer;
    }

    /** `send`: refused with `onError` unless connected with a device id; a write error fires `onError` and is rethrown. */
    method Send(data: seq<byte>, answer: Status) returns (r: Status)
      modifies this`events
      ensures !Ready() ==> r == Failed(SendWhileDisconnected) && events == old(events) + [OnError(SendWhileDisconnected)]
      ensures Ready() ==> r == answer && events == old(events) + (if answer.Failed? then [OnError(answer.message)] else [])
    {
      if !Ready() {
        events := events + [OnError(SendWhileDisconnected)];
        return Failed(SendWhileDisconnected);
      }
      if answer.Failed? {
        events := events + [OnError(answer.message)];
      }
      r := answer;
    }

    /** `read`: refused with `onError` unless connected with a device id; a no-op while subscribed; otherwise subscribes. */
    method Read() returns (r: Status)
      modifies this`isSubscribedToData, this`events
      ensures !Ready() ==>
        r == Failed(ReadWhileDisconnected) && events == old(events) + [OnError(ReadWhileDisconnected)]
        && isSubscribedToData == old(isSubscribedToData)
      ensures Ready() ==> r == Done && isSubscribedToData && events == old(events)
    {
      if !Ready() {
        events := events + [OnError(ReadWhileDisconnected)];
        return Failed(ReadWhileDisconnected);
      }
      if isSubscribedToData {
        return Done;
      }
      isSubscribedToData := true;
      r := Done;
    }

    /** The subscription's data callback: the chunk goes to `onData`. */
    method RawDataReceived(data: seq<byte>)
      modifies this`events
      ensures events == old(events) + [OnData(data)]
    {
      events := events + [OnData(data)];
    }

    /** The subscription's error callback: no longer subscribed, and `onError` fires. */
    method SubscriptionFailed(message: string)
      modifies this`isSubscribedToData, this`events
      ensures !isSubscribedToData && events == old(events) + [OnError(message)]
    {
      isSubscribedToData := false;
      events := events + [OnError(message)];
    }

    /** `stopReading`: a no-op unless subscribed with a device id; both unsubscribe callbacks clear the flag. */
    method StopReading()
      modifies this`isSubscribedToData
      ensures isSubscribedToData == (old(isSubscribedToData) && !(connectedDeviceId.Some? && connectedDeviceId.value != []))
    {
      if !isSubscribedToData || connectedDeviceId.None? || connectedDeviceId.value == [] {
        return;
      }
      isSubscribedToData := false;
    }

    /**
     * `disconnect`: a no-op unless connected with a device id. Otherwise
     * reading stops and the state is cleared whatever the plugin answers;
     * success fires `onDisconnect`, an error fires `onError` twice (in the
     * callback and in the catch) and is rethrown.
     */
    method Disconnect(answer: Status) returns (r: Status)
      requires Valid()
      modifies this`isConnected, this`connectedDeviceId, this`isSubscribedToData, this`events
      ensures Valid()
      ensures !old(Ready()) ==> r == Done && unchanged(this)
      ensures old(Ready()) ==>
        r == answer && !isConnected && connectedDeviceId == None && !isSubscribedToData
        && events == old(events) + (if answer.Done? then [OnDisconnect] else [OnError(answer.message), OnError(answer.message)])
    {
      if !Ready() {
        return Done;
      }
      StopReading();
      match answer
      case Done =>
        isConnected := false;
        connectedDeviceId := None;
        events := events + [OnDisconnect];
        r := Done;
      case Failed(message) =>
        events := events + [OnError(message)];
        isConnected := false;
        connectedDeviceId := None;
        events := events + [OnError(message)];
        r := answer;
    }
  }
}
