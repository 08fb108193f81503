/**
 * The Bluetooth Low Energy connection: which service and characteristic it
 * talks through, the connected flag and device id, the send/read guards,
 * and the de-duplicated scan list.
 *
 * What the BLE plugin answers is a parameter; the peripheral-initiated
 * disconnect and each notification are methods of their own, and the scan
 * is the sequence of results the plugin reports during its five seconds.
 */
module BleConnection {
  import opened Text
  import opened Bluetooth

  const DefaultServiceUuid := "0000ffe0-0000-1000-8000-00805f9b34fb"
  const DefaultCharacteristicUuid := "0000ffe1-0000-1000-8000-00805f9b34fb"

  const NoService := "No compatible BLE service found on device"
  const NoCharacteristic := "No compatible BLE characteristic found on device"
  const SendWhileDisconnected := "Cannot send data: Bluetooth not connected"
  const ReadWhileDisconnected := "Cannot read: Bluetooth not connected"
  const NoDevice := "BLE device not connected"

  datatype Characteristic = Characteristic(uuid: string, write: bool, notify: bool)
  datatype Service = Service(uuid: string, characteristics: seq<Characteristic>)

  /** A characteristic the serial link can both write to and be notified on. */
  predicate WriteNotify(c: Characteristic) {
    c.write && c.notify
  }

  predicate HasWriteNotify(s: Service) {
    exists c :: c in s.characteristics && WriteNotify(c)
  }

  /** `xs.findIndex(p)`, as an option. */
  function FindFirst<T>(xs: seq<T>, p: T -> bool): (r: Option<nat>)
    ensures r.Some? ==> r.value < |xs| && p(xs[r.value]) && forall j :: 0 <= j < r.value ==> !p(xs[j])
    ensures r.None? ==> forall j :: 0 <= j < |xs| ==> !p(xs[j])
  {
    if xs == [] then None
    else if p(xs[0]) then Some(0)
    else match FindFirst(xs[1..], p)
      case None => None
      case Some(k) => Some(k + 1)
  }

  /** The service `connect` picks: the first with a write-and-notify characteristic, else the first with the preferred UUID. */
  function SelectService(services: seq<Service>, preferred: string): (r: Option<Service>)
  {
    match FindFirst(services, HasWriteNotify)
    case Some(i) => Some(services[i])
    case None =>
      match FindFirst(services, (s: Service) => s.uuid == preferred)
      case Some(i) => Some(services[i])
      case None => None
  }

  /** The characteristic `connect` picks: the first with write and notify, else the first one. */
  function SelectCharacteristic(s: Service): (r: Option<Characteristic>)
  {
    match FindFirst(s.characteristics, WriteNotify)
    case Some(i) => Some(s.characteristics[i])
    case None => if s.characteristics == [] then None else Some(s.characteristics[0])
  }

  /**
   * The service choice: a service exists exactly when some service has a
   * write-and-notify characteristic or the preferred UUID; the first
   * capable service wins, and the UUID match is only a fallback.
   */
  lemma SelectServiceChoice(services: seq<Service>, preferred: string)
    ensures SelectService(services, preferred).Some? <==>
      exists i :: 0 <= i < |services| && (HasWriteNotify(services[i]) || services[i].uuid == preferred)
    ensures forall i :: 0 <= i < |services| && HasWriteNotify(services[i]) ==>
      SelectService(services, preferred).Some? && HasWriteNotify(SelectService(services, preferred).value)
    ensures SelectService(services, preferred).Some? ==>
      var s := SelectService(services, preferred).value;
      exists i :: 0 <= i < |services| && s == services[i]
        && (HasWriteNotify(s) || (s.uuid == preferred && forall j :: 0 <= j < |services| ==> !HasWriteNotify(services[j])))
        && forall j :: 0 <= j < i ==> !HasWriteNotify(services[j])
  {
    var first := FindFirst(services, HasWriteNotify);
    if first.None? {
      var byUuid := FindFirst(services, (s: Service) => s.uuid == preferred);
      if byUuid.Some? {
        assert services[byUuid.value].uuid == preferred;
      }
    }
  }

  /** The characteristic choice: none only for a service without characteristics; a write-and-notify one wins when there is one. */
  lemma SelectCharacteristicChoice(s: Service)
    ensures SelectCharacteristic(s).None? <==> s.characteristics == []
    ensures SelectCharacteristic(s).Some? ==> SelectCharacteristic(s).value in s.characteristics
    ensures HasWriteNotify(s) <==> SelectCharacteristic(s).Some? && WriteNotify(SelectCharacteristic(s).value)
  {
    var first := FindFirst(s.characteristics, WriteNotify);
    if HasWriteNotify(s) {
      var c :| c in s.characteristics && WriteNotify(c);
      var k :| 0 <= k < |s.characteristics| && s.characteristics[k] == c;
      assert first.Some?;
    }
  }

  /** The service and characteristic a connect with these plugin answers settles on, if it succeeds. */
  function Chosen(connected: Status, services: Answer<seq<Service>>, preferred: string): Option<(Service, Characteristic)> {
    if connected.Failed? || services.Rejected? then None
    else
      match SelectService(services.value, preferred)
      case None => None
      case Some(svc) =>
        match SelectCharacteristic(svc)
        case None => None
        case Some(ch) => Some((svc, ch))
  }

  // ---------------------------------------------------------------- scan

  /** One advertisement the scan callback receives. */
  datatype ScanResult = ScanResult(deviceId: string, deviceName: Option<string>, localName: Option<string>)

  function Truthy(s: Option<string>): bool {
    s.Some? && s.value != []
  }

  /** `result.device.name || result.device.deviceId || result.localName`, empty when all are falsy. */
  function DisplayName(r: ScanResult): string {
    if Truthy(r.deviceName) then r.deviceName.value
    else if r.deviceId != [] then r.deviceId
    else if r.localName.Some? then r.localName.value
    else ""
  }

  predicate Listed(devices: seq<BluetoothDevice>, id: string) {
    exists d :: d in devices && d.id == id
  }

  /**
   * A scan result's entry in the list: its id and display name, and no
   * address. The connection type, the UUIDs and the result's own fields
   * that the entry also carries are not part of `BluetoothDevice`.
   */
  function ScanDevice(r: ScanResult): BluetoothDevice {
    BluetoothDevice(r.deviceId, Some(DisplayName(r)), None)
  }

  /** The list after the callback has seen `results` in order: a named result is pushed unless its id is listed. */
  function ScanList(results: seq<ScanResult>): (devices: seq<BluetoothDevice>)
    decreases |results|
  {
    if results == [] then []
    else
      var prior := ScanList(results[..|results| - 1]);
      var r := results[|results| - 1];
      if DisplayName(r) != [] && !Listed(prior, r.deviceId) then prior + [ScanDevice(r)] else prior
  }

  predicate UniqueDeviceIds(devices: seq<BluetoothDevice>) {
    forall i, j :: 0 <= i < j < |devices| ==> devices[i].id != devices[j].id
  }

  /**
   * The scan list has no duplicate ids, lists the id of every named
   * result, and holds only entries made from some named result.
   */
  lemma {:induction false} ScanListProperties(results: seq<ScanResult>)
    ensures UniqueDeviceIds(ScanList(results))
    ensures forall k :: 0 <= k < |results| && DisplayName(results[k]) != [] ==> Listed(ScanList(results), results[k].deviceId)
    ensures forall d :: d in ScanList(results) ==>
      exists k :: 0 <= k < |results| && DisplayName(results[k]) != [] && d == ScanDevice(results[k])
    decreases |results|
  {
    if results != [] {
      var init := results[..|results| - 1];
      ScanListProperties(init);
      var prior := ScanList(init);
      var r := results[|results| - 1];
      forall k | 0 <= k < |results| && DisplayName(results[k]) != []
        ensures Listed(ScanList(results), results[k].deviceId)
      {
        if k < |results| - 1 {
          assert results[k] == init[k];
          var d :| d in prior && d.id == results[k].deviceId;
          assert d in ScanList(results);
        } else if !Listed(prior, r.deviceId) {
          assert ScanDevice(r) in ScanList(results);
        }
      }
      forall d | d in ScanList(results)
        ensures exists k :: 0 <= k < |results| && DisplayName(results[k]) != [] && d == ScanDevice(results[k])
      {
        if d in prior {
          var k :| 0 <= k < |init| && DisplayName(init[k]) != [] && d == ScanDevice(init[k]);
          assert init[k] == results[k];
        } else {
          assert d == ScanDevice(r);
        }
      }
    }
  }

  class Connection {
    var isConnected: bool
    var bleDeviceId: Option<string>
    var bleServiceUuid: string
    var bleCharacteristicUuid: string
    /** The option callbacks fired so far, oldest first. */
    var events: seq<ConnEvent>

    /** `isConnected && bleDeviceId`: an empty id is falsy. */
    predicate HasDeviceId()
      reads this
    {
      bleDeviceId.Some? && bleDeviceId.value != []
    }

    constructor()
      ensures !isConnected && bleDeviceId == None && events == []
      ensures bleServiceUuid == DefaultServiceUuid && bleCharacteristicUuid == DefaultCharacteristicUuid
    {
      isConnected := false;
      bleDeviceId := None;
      bleServiceUuid := DefaultServiceUuid;
      bleCharacteristicUuid := DefaultCharacteristicUuid;
      events := [];
    }

    /**
     * `connect`: after the plugin connects, the device's services decide.
     * Success records the chosen service and characteristic, sets the
     * connected flag and fires `onConnect`; any failure clears the flag and
     * the device id, fires `onError` once and is rethrown. A failure after
     * the service was chosen keeps that service's UUID.
     */
    method Connect(idDevice: string, connected: Status, services: Answer<seq<Service>>) returns (r: Status)
      modifies this`isConnected, this`bleDeviceId, this`bleServiceUuid, this`bleCharacteristicUuid, this`events
      ensures r.Done? <==> Chosen(connected, services, old(bleServiceUuid)).Some?
      ensures r.Done? ==>
        var (svc, ch) := Chosen(connected, services, old(bleServiceUuid)).value;
        isConnected && bleDeviceId == Some(idDevice) && bleServiceUuid == svc.uuid && bleCharacteristicUuid == ch.uuid
        && events == old(events) + [OnConnect]
      ensures r.Failed? ==>
        !isConnected && bleDeviceId == None && bleCharacteristicUuid == old(bleCharacteristicUuid)
        && events == old(events) + [OnError(r.message)]
      ensures connected.Failed? ==> r == connected && bleServiceUuid == old(bleServiceUuid)
      ensures connected.Done? && services.Rejected? ==> r == Failed(services.message) && bleServiceUuid == old(bleServiceUuid)
      ensures connected.Done? && services.Value? && SelectService(services.value, old(bleServiceUuid)).None? ==>
        r == Failed(NoService) && bleServiceUuid == old(bleServiceUuid)
      ensures (connected.Done? && services.Value? && SelectService(services.value, old(bleServiceUuid)).Some?
               && SelectCharacteristic(SelectService(services.value, old(bleServiceUuid)).value).None?) ==>
        r == Failed(NoCharacteristic) && bleServiceUuid == SelectService(services.value, old(bleServiceUuid)).value.uuid
    {
      if connected.Failed? {
        r := connected;
      } else {
        bleDeviceId := Some(idDevice);
        if services.Rejected? {
          r := Failed(services.message);
        } else {
          var svc := SelectService(services.value, bleServiceUuid);
          if svc.None? {
            r := Failed(NoService);
          } else {
            bleServiceUuid := svc.value.uuid;
            var ch := SelectCharacteristic(svc.value);
            if ch.None? {
              r := Failed(NoCharacteristic);
            } else {
              bleCharacteristicUuid := ch.value.uuid;
              isConnected := true;
              events := events + [OnConnect];
              return Done;
            }
          }
        }
      }
      isConnected := false;
      bleDeviceId := None;
      events := events + [OnError(r.message)];
    }

    /** The disconnect callback registered with the plugin: the state is cleared and `onDisconnect` fires. */
    method PeripheralDisconnected()
      modifies this`isConnected, this`bleDeviceId, this`events
      ensures !isConnected && bleDeviceId == None && events == old(events) + [OnDisconnect]
    {
      isConnected := false;
      bleDeviceId := None;
      events := events + [OnDisconnect];
    }

    /** The guard `send` and `read` share: the error for a missing connection or device id, if any. */
    function Guard(notConnected: string): (g: Option<string>)
      reads this
      ensures g.None? <==> isConnected && HasDeviceId()
      ensures !isConnected ==> g == Some(notConnected)
      ensures isConnected && !HasDeviceId() ==> g == Some(NoDevice)
    {
      if !isConnected then Some(notConnected)
      else if !HasDeviceId() then Some(NoDevice)
      else None
    }

    /** `send`: refused with `onError` unless connected with a device id; a write error fires `onError` and is rethrown. */
    method Send(data: seq<byte>, written: Status) returns (r: Status)
      modifies this`events
      ensures Guard(SendWhileDisconnected).Some? ==>
        r == Failed(Guard(SendWhileDisconnected).value) && events == old(events) + [OnError(r.message)]
      ensures Guard(SendWhileDisconnected).None? ==>
        r == written && events == old(events) + (if written.Failed? then [OnError(written.message)] else [])
    {
      var g := Guard(SendWhileDisconnected);
      if g.Some? {
        events := events + [OnError(g.value)];
        return Failed(g.value);
      }
      if written.Failed? {
        events := events + [OnError(written.message)];
      }
      r := written;
    }

    /** `read`: the same guard; otherwise notifications start, and a plugin error fires `onError` and is rethrown. */
    method Read(started: Status) returns (r: Status)
      modifies this`events
      ensures Guard(ReadWhileDisconnected).Some? ==>
        r == Failed(Guard(ReadWhileDisconnected).value) && events == old(events) + [OnError(r.message)]
      ensures Guard(ReadWhileDisconnected).None? ==>
        r == started && events == old(events) + (if started.Failed? then [OnError(started.message)] else [])
    {
      var g := Guard(ReadWhileDisconnected);
      if g.Some? {
        events := events + [OnError(g.value)];
        return Failed(g.value);
      }
      if started.Failed? {
        events := events + [OnError(started.message)];
      }
      r := started;
    }

    /** A notification: its bytes go to `onData`. */
    method NotificationReceived(data: seq<byte>)
      modifies this`events
      ensures events == old(events) + [OnData(data)]
    {
      events := events + [OnData(data)];
    }

    /**
     * `disconnect`: a no-op unless connected with a device id. A plugin
     * success clears the state and fires `onDisconnect`; an error fires
     * `onError`, is rethrown and leaves the state as it was.
     */
    method Disconnect(answer: Status) returns (r: Status)
      modifies this`isConnected, this`bleDeviceId, this`events
      ensures !(old(isConnected) && old(HasDeviceId())) ==> r == Done && unchanged(this)
      ensures old(isConnected) && old(HasDeviceId()) && answer.Done? ==>
        r == Done && !isConnected && bleDeviceId == None && events == old(events) + [OnDisconnect]
      ensures old(isConnected) && old(HasDeviceId()) && answer.Failed? ==>
        r == answer && isConnected && bleDeviceId == old(bleDeviceId) && events == old(events) + [OnError(answer.message)]
    {
      if !isConnected || !HasDeviceId() {
        return Done;
      }
      match answer
      case Done =>
        bleDeviceId := None;
        isConnected := false;
        events := events + [OnDisconnect];
        r := Done;
      case Failed(message) =>
        events := events + [OnError(message)];
        r := answer;
    }

    /**
     * `listAvailableDevices`: the scan callback pushes each named result
     * whose id is not yet listed; a failure to start or stop the scan is
     * rethrown.
     */
    method ListAvailableDevices(started: Status, results: seq<ScanResult>, stopped: Status)
      returns (r: Answer<seq<BluetoothDevice>>)
      ensures started.Failed? ==> r == Rejected(started.message)
      ensures started.Done? && stopped.Failed? ==> r == Rejected(stopped.message)
      ensures started.Done? && stopped.Done? ==> r == Value(ScanList(results))
    {
      if started.Failed? {
        return Rejected(started.message);
      }
      var devices: seq<BluetoothDevice> := [];
      for i := 0 to |results|
        invariant devices == ScanList(results[..i])
      {
        var result := results[i];
        var name := DisplayName(result);
        assert results[..i + 1][..i] == results[..i];
        if name != [] && !(exists d :: d in devices && d.id == result.deviceId) {
          devices := devices + [BluetoothDevice(result.deviceId, Some(name), None)];
        }
      }
      assert results[..|results|] == results;
      if stopped.Failed? {
        return Rejected(stopped.message);
      }
      r := Value(devices);
    }
  }
}
