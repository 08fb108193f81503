/**
 * What the Bluetooth connections and the transports above them share: the
 * device record and the callbacks a connection fires on the options its
 * owner provided.
 */
module Bluetooth {
  import opened Text

  /** A Bluetooth device as the settings store, the connections and the transports pass it around. */
  datatype BluetoothDevice = BluetoothDevice(id: string, name: Option<string>, address: Option<string>)

  /** A call of one of the `onConnect`, `onDisconnect`, `onError` and `onData` options. */
  datatype ConnEvent = OnConnect | OnDisconnect | OnError(message: string) | OnData(data: seq<byte>)
}
