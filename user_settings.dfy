/**
 * The user-settings store: measuring units, the chosen GPS and EML
 * Bluetooth devices and the EML connection type, loaded once from local
 * storage and written back by each setter, which reverts the setting and
 * rethrows when the write fails.
 *
 * Local storage is a map field; whether a write succeeds is a parameter;
 * JSON for devices is a pair of oracles; the connection types are the
 * enum's values, given as a set with its disabled member.
 */
module UserSettings {
  import opened Text
  import opened Bluetooth

  const UnitKey := "gla-user-unit"
  const GpsDeviceKey := "gla-selected-bluetooth-gps-device"
  const EmlDeviceKey := "gla-selected-bluetooth-eml-device"
  const ConnectionTypeKey := "gla-eml-connection-type"

  datatype Unit = Centimeters | Meters | Feet | Inches

  /** The enum's string values. */
  function UnitValue(u: Unit): string {
    match u
    case Centimeters => "cm"
    case Meters => "m"
    case Feet => "ft"
    case Inches => "in"
  }

  /** `Object.values(Unit).includes(s)`, and which unit it is. */
  function UnitFromValue(s: string): (r: Option<Unit>)
    ensures r.Some? ==> UnitValue(r.value) == s
    ensures r.None? ==> forall u :: UnitValue(u) != s
  {
    if s == "cm" then Some(Centimeters)
    else if s == "m" then Some(Meters)
    else if s == "ft" then Some(Feet)
    else if s == "in" then Some(Inches)
    else None
  }

  lemma UnitRoundTrip(u: Unit)
    ensures UnitFromValue(UnitValue(u)) == Some(u)
  {
  }

  datatype Settings = Settings(units: Unit, gpsDevice: Option<BluetoothDevice>, emlDevice: Option<BluetoothDevice>,
                               emlConnectionType: string)

  function Defaults(disabledType: string): Settings {
    Settings(Meters, None, None, disabledType)
  }

  /** A stored device: nothing when the key is missing or empty, otherwise what `JSON.parse` makes of it. */
  function LoadDevice(storage: map<string, string>, key: string, parse: string -> Answer<Option<BluetoothDevice>>)
    : (r: Answer<Option<BluetoothDevice>>)
    ensures key !in storage || storage[key] == "" ==> r == Value(None)
  {
    if key in storage && storage[key] != "" then parse(storage[key]) else Value(None)
  }

  /**
   * `loadFromStorage` over the current settings: a stored unit or
   * connection type is taken only when it is one of its enum's values; a
   * stored device replaces the current one; a device that fails to parse
   * ends the load, leaving the settings after it as they were.
   */
  function Load(current: Settings, storage: map<string, string>, parse: string -> Answer<Option<BluetoothDevice>>,
                connectionTypes: set<string>): (r: Settings)
    ensures UnitKey !in storage ==> r.units == current.units
    ensures UnitKey in storage && UnitFromValue(storage[UnitKey]).Some? ==> r.units == UnitFromValue(storage[UnitKey]).value
    ensures LoadDevice(storage, GpsDeviceKey, parse).Rejected? ==>
      r.gpsDevice == current.gpsDevice && r.emlDevice == current.emlDevice && r.emlConnectionType == current.emlConnectionType
    ensures LoadDevice(storage, GpsDeviceKey, parse).Value? ==>
      r.gpsDevice == (if GpsDeviceKey in storage && storage[GpsDeviceKey] != "" then LoadDevice(storage, GpsDeviceKey, parse).value
                      else current.gpsDevice)
    ensures r.emlConnectionType != current.emlConnectionType ==> r.emlConnectionType in connectionTypes
  {
    var units :=
      if UnitKey in storage && storage[UnitKey] != "" && UnitFromValue(storage[UnitKey]).Some?
      then UnitFromValue(storage[UnitKey]).value else current.units;
    var gps := LoadDevice(storage, GpsDeviceKey, parse);
    if gps.Rejected? then current.(units := units)
    else
      var gpsDevice := if GpsDeviceKey in storage && storage[GpsDeviceKey] != "" then gps.value else current.gpsDevice;
      var eml := LoadDevice(storage, EmlDeviceKey, parse);
      if eml.Rejected? then current.(units := units, gpsDevice := gpsDevice)
      else
        var emlDevice := if EmlDeviceKey in storage && storage[EmlDeviceKey] != "" then eml.value else current.emlDevice;
        var connectionType :=
          if ConnectionTypeKey in storage && storage[ConnectionTypeKey] != "" && storage[ConnectionTypeKey] in connectionTypes
          then storage[ConnectionTypeKey] else current.emlConnectionType;
        Settings(units, gpsDevice, emlDevice, connectionType)
  }

  /** Every stored device parses, so a load reads every key. */
  predicate Readable(storage: map<string, string>, parse: string -> Answer<Option<BluetoothDevice>>) {
    LoadDevice(storage, GpsDeviceKey, parse).Value? && LoadDevice(storage, EmlDeviceKey, parse).Value?
  }

  /** `JSON.parse` undoes `JSON.stringify` on devices, whose JSON is never empty. */
  ghost predicate DeviceRoundTrip(parse: string -> Answer<Option<BluetoothDevice>>, stringify: BluetoothDevice -> string) {
    forall d :: stringify(d) != "" && parse(stringify(d)) == Value(Some(d))
  }

  /** Empty storage loads the defaults. */
  lemma LoadEmpty(parse: string -> Answer<Option<BluetoothDevice>>, connectionTypes: set<string>, disabledType: string)
    ensures Load(Defaults(disabledType), map[], parse, connectionTypes) == Defaults(disabledType)
  {
  }

  /** A stored GPS device that does not parse hides the EML device and the connection type stored after it. */
  lemma CorruptGpsDeviceHidesRest(storage: map<string, string>, parse: string -> Answer<Option<BluetoothDevice>>,
                                  connectionTypes: set<string>, disabledType: string)
    requires GpsDeviceKey in storage && storage[GpsDeviceKey] != "" && parse(storage[GpsDeviceKey]).Rejected?
    ensures var r := Load(Defaults(disabledType), storage, parse, connectionTypes);
      r.gpsDevice == None && r.emlDevice == None && r.emlConnectionType == disabledType
  {
  }

  /** Loading is idempotent: what a load leaves, the same storage loads again. */
  lemma LoadTwice(current: Settings, storage: map<string, string>, parse: string -> Answer<Option<BluetoothDevice>>,
                  connectionTypes: set<string>)
    ensures var once := Load(current, storage, parse, connectionTypes);
      Load(once, storage, parse, connectionTypes) == once
  {
  }

  class Store {
    var units: Unit
    var selectedBluetoothGpsDevice: Option<BluetoothDevice>
    var selectedBluetoothEmlDevice: Option<BluetoothDevice>
    var emlConnectionType: string
    var storage: map<string, string>
    const parse: string -> Answer<Option<BluetoothDevice>>
    const stringify: BluetoothDevice -> string
    const connectionTypes: set<string>
    const disabledType: string

    function Current(): Settings
      reads this
    {
      Settings(units, selectedBluetoothGpsDevice, selectedBluetoothEmlDevice, emlConnectionType)
    }

    /** What is stored loads back as the current settings. */
    predicate Persisted()
      reads this
    {
      Load(Defaults(disabledType), storage, parse, connectionTypes) == Current()
    }

    /** The store as it is created: the defaults, then `loadFromStorage`. */
    constructor(storage: map<string, string>, parse: string -> Answer<Option<BluetoothDevice>>,
                stringify: BluetoothDevice -> string, connectionTypes: set<string>, disabledType: string)
      ensures this.storage == storage && this.parse == parse && this.stringify == stringify
      ensures this.connectionTypes == connectionTypes && this.disabledType == disabledType
      ensures Current() == Load(Defaults(disabledType), storage, parse, connectionTypes)
      ensures Persisted()
    {
      this.storage := storage;
      this.parse := parse;
      this.stringify := stringify;
      this.connectionTypes := connectionTypes;
      this.disabledType := disabledType;
      units := Meters;
      selectedBluetoothGpsDevice := None;
      selectedBluetoothEmlDevice := None;
      emlConnectionType := disabledType;
      new;
      LoadFromStorage();
    }

    /** `loadFromStorage`: the settings become the load over them. */
    method LoadFromStorage()
      modifies this`units, this`selectedBluetoothGpsDevice, this`selectedBluetoothEmlDevice, this`emlConnectionType
      ensures Current() == Load(old(Current()), storage, parse, connectionTypes)
    {
      if UnitKey in storage && storage[UnitKey] != "" {
        var savedUnits := UnitFromValue(storage[UnitKey]);
        if savedUnits.Some? {
          units := savedUnits.value;
        }
      }
      if GpsDeviceKey in storage && storage[GpsDeviceKey] != "" {
        var parsed := parse(storage[GpsDeviceKey]);
        if parsed.Rejected? {
          return;
        }
        selectedBluetoothGpsDevice := parsed.value;
      }
      if EmlDeviceKey in storage && storage[EmlDeviceKey] != "" {
        var parsed := parse(storage[EmlDeviceKey]);
        if parsed.Rejected? {
          return;
        }
        selectedBluetoothEmlDevice := parsed.value;
      }
      if ConnectionTypeKey in storage && storage[ConnectionTypeKey] != "" && storage[ConnectionTypeKey] in connectionTypes {
        emlConnectionType := storage[ConnectionTypeKey];
      }
    }

    /** `setUnits`: the unit and its stored value, or neither when the write fails. */
    method SetUnits(newUnit: Unit, written: Status) returns (r: Status)
      modifies this`units, this`storage
      ensures r == written
      ensures written.Done? ==> units == newUnit && storage == old(storage)[UnitKey := UnitValue(newUnit)]
      ensures written.Failed? ==> units == old(units) && storage == old(storage)
      ensures old(Persisted()) && old(Readable(storage, parse)) ==> Persisted() && Readable(storage, parse)
    {
      var previousUnit := units;
      units := newUnit;
      if written.Failed? {
        units := previousUnit;
        return written;
      }
      storage := storage[UnitKey := UnitValue(units)];
      UnitRoundTrip(newUnit);
      r := Done;
    }

    /** `setSelectedBluetoothGpsDevice`: null removes the key, a device stores its JSON; a failure reverts. */
    method SetSelectedBluetoothGpsDevice(device: Option<BluetoothDevice>, written: Status) returns (r: Status)
      modifies this`selectedBluetoothGpsDevice, this`storage
      ensures r == written
      ensures written.Done? ==>
        selectedBluetoothGpsDevice == device
        && storage == if device.None? then old(storage) - {GpsDeviceKey} else old(storage)[GpsDeviceKey := stringify(device.value)]
      ensures written.Failed? ==> selectedBluetoothGpsDevice == old(selectedBluetoothGpsDevice) && storage == old(storage)
      ensures DeviceRoundTrip(parse, stringify) && old(Persisted()) && old(Readable(storage, parse)) ==>
        Persisted() && Readable(storage, parse)
    {
      var previousDevice := selectedBluetoothGpsDevice;
      selectedBluetoothGpsDevice := device;
      if written.Failed? {
        selectedBluetoothGpsDevice := previousDevice;
        return written;
      }
      if device.None? {
        storage := storage - {GpsDeviceKey};
      } else {
        storage := storage[GpsDeviceKey := stringify(device.value)];
      }
      r := Done;
    }

    /** `setSelectedBluetoothEmlDevice`: as for the GPS device, under the EML key. */
    method SetSelectedBluetoothEmlDevice(device: Option<BluetoothDevice>, written: Status) returns (r: Status)
      modifies this`selectedBluetoothEmlDevice, this`storage
      ensures r == written
      ensures written.Done? ==>
        selectedBluetoothEmlDevice == device
        && storage == if device.None? then old(storage) - {EmlDeviceKey} else old(storage)[EmlDeviceKey := stringify(device.value)]
      ensures written.Failed? ==> selectedBluetoothEmlDevice == old(selectedBluetoothEmlDevice) && storage == old(storage)
      ensures DeviceRoundTrip(parse, stringify) && old(Persisted()) && old(Readable(storage, parse)) ==>
        Persisted() && Readable(storage, parse)
    {
      var previousDevice := selectedBluetoothEmlDevice;
      selectedBluetoothEmlDevice := device;
      if written.Failed? {
        selectedBluetoothEmlDevice := previousDevice;
        return written;
      }
      if device.None? {
        storage := storage - {EmlDeviceKey};
      } else {
        storage := storage[EmlDeviceKey := stringify(device.value)];
      }
      r := Done;
    }

    /**
     * `setEmlConnectionType`: the type and its stored value, or neither
     * when the write fails. An empty value would be stored but, being
     * falsy, not loaded back.
     */
    method SetEmlConnectionType(connectionType: string, written: Status) returns (r: Status)
      requires connectionType in connectionTypes
      modifies this`emlConnectionType, this`storage
      ensures r == written
      ensures written.Done? ==> emlConnectionType == connectionType && storage == old(storage)[ConnectionTypeKey := connectionType]
      ensures written.Failed? ==> emlConnectionType == old(emlConnectionType) && storage == old(storage)
      ensures connectionType != "" && old(Persisted()) && old(Readable(storage, parse)) ==> Persisted() && Readable(storage, parse)
    {
      var previousType := emlConnectionType;
      emlConnectionType := connectionType;
      if written.Failed? {
        emlConnectionType := previousType;
        return written;
      }
      storage := storage[ConnectionTypeKey := emlConnectionType];
      r := Done;
    }
  }
}
