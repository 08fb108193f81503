/**
 * The EML transport: server mode first (the locator connects to the phone),
 * with a client connection as the fallback when the server side cannot
 * start a server, and the flags that remember which mode is in use.
 *
 * The two connections' answers are parameters, and the calls the transport
 * makes on them are recorded in order.
 */
module EmlTransport {
  import opened Text
  import opened Bluetooth

  const NoService := "At least one Bluetooth service must be provided"
  const NoDevice := "No valid EML device provided"
  const NoMethod := "No connection method available"

  /** Which optional server methods a connection has. */
  datatype Capabilities = Capabilities(startServer: bool, stopServer: bool)

  datatype ServiceCall =
    | ClientConnect(id: string) | ClientDisconnect | ClientRead | ClientList
    | ServerStart | ServerStop | ServerRead | ServerList

  class Transport {
    const clientService: Option<Capabilities>
    const serverService: Option<Capabilities>
    var connectedDevice: Option<BluetoothDevice>
    var usingServerMode: bool
    var serverStarted: bool
    /** The calls made on the two connections so far, oldest first. */
    var calls: seq<ServiceCall>

    constructor(clientService: Option<Capabilities>, serverService: Option<Capabilities>)
      requires clientService.Some? || serverService.Some?
      ensures this.clientService == clientService && this.serverService == serverService
      ensures connectedDevice == None && !usingServerMode && !serverStarted && calls == []
    {
      this.clientService := clientService;
      this.serverService := serverService;
      connectedDevice := None;
      usingServerMode := false;
      serverStarted := false;
      calls := [];
    }

    /** `serverService?.startServer`: the server side can start a server. */
    predicate ServerCanStart()
      reads this
    {
      serverService.Some? && serverService.value.startServer
    }

    /**
     * `connect`. A missing device is refused. In server mode a running
     * server only switches the mode on; otherwise the flags are set before
     * the server starts and all reset, with the device, if it fails.
     * Without a startable server a client connection is tried, and with
     * no client either the connect fails.
     */
    method Connect(device: Option<BluetoothDevice>, serverAnswer: Status, clientAnswer: Status) returns (r: Status)
      modifies this`connectedDevice, this`usingServerMode, this`serverStarted, this`calls
      ensures device.None? ==> r == Failed(NoDevice) && unchanged(this)
      ensures device.Some? && ServerCanStart() && old(serverStarted) ==>
        r == Done && usingServerMode && serverStarted && connectedDevice == device && calls == old(calls)
      ensures device.Some? && ServerCanStart() && !old(serverStarted) ==>
        r == serverAnswer && calls == old(calls) + [ServerStart]
        && usingServerMode == serverAnswer.Done? && serverStarted == serverAnswer.Done?
        && connectedDevice == (if serverAnswer.Done? then device else None)
      ensures device.Some? && !ServerCanStart() && clientService.Some? ==>
        r == clientAnswer && calls == old(calls) + [ClientConnect(device.value.id)]
        && serverStarted == old(serverStarted)
        && (clientAnswer.Done? ==> connectedDevice == device && !usingServerMode)
        && (clientAnswer.Failed? ==> connectedDevice == None && usingServerMode == old(usingServerMode))
      ensures device.Some? && !ServerCanStart() && clientService.None? ==>
        r == Failed(NoMethod) && connectedDevice == None && calls == old(calls)
        && unchanged(this`usingServerMode, this`serverStarted)
    {
      if device.None? {
        return Failed(NoDevice);
      }
      connectedDevice := device;
      if ServerCanStart() {
        if serverStarted {
          usingServerMode := true;
          return Done;
        }
        usingServerMode := true;
        serverStarted := true;
        calls := calls + [ServerStart];
        if serverAnswer.Failed? {
          usingServerMode := false;
          serverStarted := false;
          connectedDevice := None;
        }
        return serverAnswer;
      }
      if clientService.Some? {
        calls := calls + [ClientConnect(device.value.id)];
        if clientAnswer.Failed? {
          connectedDevice := None;
          return clientAnswer;
        }
        usingServerMode := false;
        return Done;
      }
      connectedDevice := None;
      r := Failed(NoMethod);
    }

    /**
     * `disconnect`: a no-op with no device and no server. Otherwise the
     * server is stopped in server mode, else the client disconnected;
     * errors are swallowed, the server counts as stopped only after a
     * successful stop, and the device and mode are always cleared.
     */
    method Disconnect(serverAnswer: Status, clientAnswer: Status)
      modifies this`connectedDevice, this`usingServerMode, this`serverStarted, this`calls
      ensures old(connectedDevice).None? && !old(serverStarted) ==> unchanged(this)
      ensures old(connectedDevice).Some? || old(serverStarted) ==>
        connectedDevice == None && !usingServerMode
      ensures var stopsServer := old(usingServerMode) && serverService.Some? && serverService.value.stopServer;
        (old(connectedDevice).Some? || old(serverStarted)) ==>
          (stopsServer ==> calls == old(calls) + [ServerStop] && serverStarted == (old(serverStarted) && serverAnswer.Failed?))
          && (!stopsServer ==>
                serverStarted == old(serverStarted)
                && calls == old(calls) + (if clientService.Some? then [ClientDisconnect] else []))
    {
      if connectedDevice.None? && !serverStarted {
        return;
      }
      if usingServerMode && serverService.Some? && serverService.value.stopServer {
        calls := calls + [ServerStop];
        if serverAnswer.Done? {
          serverStarted := false;
        }
      } else if clientService.Some? {
        calls := calls + [ClientDisconnect];
      }
      connectedDevice := None;
      usingServerMode := false;
    }

    /** `read`: nothing without a device; otherwise forwarded to the connection for the current mode. */
    method Read()
      modifies this`calls
      ensures connectedDevice.None? ==> calls == old(calls)
      ensures connectedDevice.Some? && usingServerMode ==>
        calls == old(calls) + (if serverService.Some? then [ServerRead] else [])
      ensures connectedDevice.Some? && !usingServerMode ==>
        calls == old(calls) + (if clientService.Some? then [ClientRead] else [])
    {
      if connectedDevice.None? {
        return;
      }
      if usingServerMode {
        if serverService.Some? {
          calls := calls + [ServerRead];
        }
      } else if clientService.Some? {
        calls := calls + [ClientRead];
      }
    }

    /** `listAvailableDevices`: the client's list, else the server's, else none. */
    method ListAvailableDevices(clientList: Answer<seq<BluetoothDevice>>, serverList: Answer<seq<BluetoothDevice>>)
      returns (r: Answer<seq<BluetoothDevice>>)
      modifies this`calls
      ensures clientService.Some? ==> r == clientList && calls == old(calls) + [ClientList]
      ensures clientService.None? && serverService.Some? ==> r == serverList && calls == old(calls) + [ServerList]
      ensures clientService.None? && serverService.None? ==> r == Value([]) && calls == old(calls)
    {
      if clientService.Some? {
        calls := calls + [ClientList];
        return clientList;
      }
      if serverService.Some? {
        calls := calls + [ServerList];
        return serverList;
      }
      r := Value([]);
    }
  }

  /** The constructor, which throws unless at least one connection is given. */
  method NewTransport(clientService: Option<Capabilities>, serverService: Option<Capabilities>) returns (r: Answer<Transport>)
    ensures r.Rejected? <==> clientService.None? && serverService.None?
    ensures r.Rejected? ==> r.message == NoService
    ensures r.Value? ==>
      fresh(r.value) && r.value.clientService == clientService && r.value.serverService == serverService
      && r.value.connectedDevice == None && !r.value.usingServerMode && !r.value.serverStarted
  {
    if clientService.None? && serverService.None? {
      return Rejected(NoService);
    }
    var t := new Transport(clientService, serverService);
    r := Value(t);
  }
}
