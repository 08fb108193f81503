/**
 * The GPS transport over a Bluetooth connection: it remembers the device
 * it connects to and forwards to the connection only while it has one.
 *
 * The connection's answers are parameters, and the calls the transport
 * makes on it are recorded in order.
 */
module GpsTransport {
  import opened Text
  import opened Bluetooth

  const NoService := "Bluetooth service must be provided"
  const NoDevice := "No valid GPS device provided"

  datatype ServiceCall = ServiceConnect(id: string) | ServiceDisconnect | ServiceRead | ServiceList

  class Transport {
    var connectedDevice: Option<BluetoothDevice>
    /** The calls made on the connection so far, oldest first. */
    var calls: seq<ServiceCall>

    constructor()
      ensures connectedDevice == None && calls == []
    {
      connectedDevice := None;
      calls := [];
    }

    /**
     * `connect`: a missing device is refused; otherwise the device is
     * recorded before the connection is asked, and cleared again if the
     * connection fails, whose error is rethrown.
     */
    method Connect(device: Option<BluetoothDevice>, connected: Status) returns (r: Status)
      modifies this`connectedDevice, this`calls
      ensures device.None? ==> r == Failed(NoDevice) && unchanged(this)
      ensures device.Some? ==>
        r == connected && calls == old(calls) + [ServiceConnect(device.value.id)]
        && connectedDevice == (if connected.Done? then device else None)
    {
      if device.None? {
        return Failed(NoDevice);
      }
      connectedDevice := device;
      calls := calls + [ServiceConnect(device.value.id)];
      if connected.Failed? {
        connectedDevice := None;
      }
      r := connected;
    }

    /** `disconnect`: a no-op without a device; the device is cleared only after the connection disconnects. */
    method Disconnect(disconnected: Status) returns (r: Status)
      modifies this`connectedDevice, this`calls
      ensures old(connectedDevice).None? ==> r == Done && unchanged(this)
      ensures old(connectedDevice).Some? ==>
        r == disconnected && calls == old(calls) + [ServiceDisconnect]
        && connectedDevice == (if disconnected.Done? then None else old(connectedDevice))
    {
      if connectedDevice.None? {
        return Done;
      }
      calls := calls + [ServiceDisconnect];
      if disconnected.Done? {
        connectedDevice := None;
      }
      r := disconnected;
    }

    /** `read`: forwarded only while a device is connected. */
    method Read()
      modifies this`calls
      ensures calls == old(calls) + (if connectedDevice.Some? then [ServiceRead] else [])
    {
      if connectedDevice.None? {
        return;
      }
      calls := calls + [ServiceRead];
    }

    /** `listAvailableDevices`: the connection's list. */
    method ListAvailableDevices(listed: Answer<seq<BluetoothDevice>>) returns (r: Answer<seq<BluetoothDevice>>)
      modifies this`calls
      ensures r == listed && calls == old(calls) + [ServiceList]
    {
      calls := calls + [ServiceList];
      r := listed;
    }
  }

  /** The constructor, which throws when no connection is given. */
  method NewTransport(serviceProvided: bool) returns (r: Answer<Transport>)
    ensures r.Rejected? <==> !serviceProvided
    ensures r.Rejected? ==> r.message == NoService
    ensures r.Value? ==> fresh(r.value) && r.value.connectedDevice == None && r.value.calls == []
  {
    if !serviceProvided {
      return Rejected(NoService);
    }
    var t := new Transport();
    r := Value(t);
  }
}
