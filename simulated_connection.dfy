/**
 * The simulated Bluetooth connection: connection and reading flags, a
 * single data-injection interval, and the GGA sentences it injects while
 * connected and reading.
 *
 * The interval's firings are a method; the random coordinates, the fix
 * quality and the clock are its parameters, and the text encoder is an
 * oracle passed in.
 */
module SimulatedConnection {
  import opened Text
  import opened Bluetooth
  import NmeaParser

  const SendWhileDisconnected := "Cannot send data: Bluetooth not connected"
  const ReadWhileDisconnected := "Cannot read: Bluetooth not connected"

  /** The three devices `listAvailableDevices` returns. */
  const MockDevices: seq<BluetoothDevice> := [
    BluetoothDevice("sim-1", Some("Simulated GPS Device 1"), Some("00:11:22:33:44:55")),
    BluetoothDevice("sim-2", Some("Simulated GPS Device 2"), Some("00:11:22:33:44:66")),
    BluetoothDevice("sim-3", Some("Simulated Bluetooth Receiver"), Some("00:11:22:33:44:77"))
  ]

  /** The fix quality drawn at random: RTK fix (4) or plain GPS fix (1). */
  function FixQuality(rtk: bool): nat {
    if rtk then 4 else 1
  }

  /** The GGA data between '$' and '*', southern and western hemisphere, with fixed satellites, HDOP and altitudes. */
  function SentenceData(utcTime: string, latitude: string, longitude: string, rtk: bool): string {
    "GPGGA," + utcTime + "," + latitude + ",S," + longitude + ",W," + NatToString(FixQuality(rtk))
      + ",08,0.9,25.0,M,34.0,M,,"
  }

  /** `generateNmeaGgaSentence`: '$', the data, '*', its checksum and CRLF. */
  function GenerateNmeaGgaSentence(utcTime: string, latitude: string, longitude: string, rtk: bool): string {
    var data := SentenceData(utcTime, latitude, longitude, rtk);
    "$" + data + "*" + NmeaParser.ChecksumText(data) + "\r\n"
  }

  predicate PlainField(s: string) {
    '*' !in s && NmeaParser.AllCodesBelow256(s)
  }

  lemma PlainConcat(a: string, b: string)
    requires PlainField(a) && PlainField(b)
    ensures PlainField(a + b)
  {
    assert forall i :: 0 <= i < |a + b| ==> (a + b)[i] == if i < |a| then a[i] else b[i - |a|];
  }

  lemma NatToStringDigits(n: nat)
    ensures forall i :: 0 <= i < |NatToString(n)| ==> '0' <= NatToString(n)[i] <= '9'
  {
  }

  /**
   * Every generated sentence carries its own checksum: the GGA parser's
   * checksum test accepts it, and the checksum is two upper-case
   * hexadecimal digits.
   */
  lemma GeneratedSentenceVerifies(utcTime: string, latitude: string, longitude: string, rtk: bool)
    requires PlainField(utcTime) && PlainField(latitude) && PlainField(longitude)
    ensures var data := SentenceData(utcTime, latitude, longitude, rtk);
      var cs := NmeaParser.ChecksumText(data);
      |cs| == 2 && NmeaParser.AllHexUpper(cs)
      && GenerateNmeaGgaSentence(utcTime, latitude, longitude, rtk) == "$" + data + "*" + cs + "\r\n"
    ensures NmeaParser.VerifyChecksum(GenerateNmeaGgaSentence(utcTime, latitude, longitude, rtk))
  {
    SentenceDataPlain(utcTime, latitude, longitude, rtk);
    FramedSentenceVerifies(SentenceData(utcTime, latitude, longitude, rtk));
  }

  /** Any plain data framed with its checksum and CRLF verifies. */
  lemma FramedSentenceVerifies(data: string)
    requires PlainField(data)
    ensures var cs := NmeaParser.ChecksumText(data);
      |cs| == 2 && NmeaParser.AllHexUpper(cs)
      && NmeaParser.VerifyChecksum("$" + data + "*" + cs + "\r\n")
  {
    NmeaParser.ChecksumTextTwoDigits(data);
    NmeaParser.VerifyRoundTrip(data, "\r\n");
  }

  /** The sentence data holds no '*' and only codes below 256 when its fields do. */
  lemma SentenceDataPlain(utcTime: string, latitude: string, longitude: string, rtk: bool)
    requires PlainField(utcTime) && PlainField(latitude) && PlainField(longitude)
    ensures PlainField(SentenceData(utcTime, latitude, longitude, rtk))
  {
    var q := NatToString(FixQuality(rtk));
    NatToStringDigits(FixQuality(rtk));
    assert PlainField(q);
    assert PlainField("GPGGA,") && PlainField(",") && PlainField(",S,") && PlainField(",W,");
    assert PlainField(",08,0.9,25.0,M,34.0,M,,");
    PlainConcat("GPGGA,", utcTime);
    PlainConcat("GPGGA," + utcTime, ",");
    PlainConcat("GPGGA," + utcTime + ",", latitude);
    PlainConcat("GPGGA," + utcTime + "," + latitude, ",S,");
    PlainConcat("GPGGA," + utcTime + "," + latitude + ",S,", longitude);
    PlainConcat("GPGGA," + utcTime + "," + latitude + ",S," + longitude, ",W,");
    PlainConcat("GPGGA," + utcTime + "," + latitude + ",S," + longitude + ",W,", q);
    PlainConcat("GPGGA," + utcTime + "," + latitude + ",S," + longitude + ",W," + q, ",08,0.9,25.0,M,34.0,M,,");
  }

  class Connection {
    var isConnected: bool
    var isReading: bool
    var dataInjectionInterval: Option<nat>
    /** The handle the next `setInterval` returns. */
    var nextIntervalId: nat
    /** The option callbacks fired so far, oldest first. */
    var events: seq<ConnEvent>

    /** Reading goes with the interval, and only a connected simulator reads. */
    predicate Valid()
      reads this
    {
      (isReading <==> dataInjectionInterval.Some?)
      && (isReading ==> isConnected)
      && (dataInjectionInterval.Some? ==> dataInjectionInterval.value < nextIntervalId)
    }

    constructor()
      ensures Valid()
      ensures !isConnected && !isReading && dataInjectionInterval == None && events == []
    {
      isConnected := false;
      isReading := false;
      dataInjectionInterval := None;
      nextIntervalId := 1;
      events := [];
    }

    /** `connect`: a no-op when already connected; otherwise connected, and `onConnect` fires. */
    method Connect()
      requires Valid()
      modifies this`isConnected, this`events
      ensures Valid() && isConnected
      ensures events == old(events) + (if old(isConnected) then [] else [OnConnect])
    {
      if isConnected {
        return;
      }
      isConnected := true;
      events := events + [OnConnect];
    }

    /** `send`: fails with `onError` while disconnected, otherwise only logs. */
    method Send(data: seq<byte>) returns (r: Status)
      modifies this`events
      ensures isConnected ==> r == Done && events == old(events)
      ensures !isConnected ==> r == Failed(SendWhileDisconnected) && events == old(events) + [OnError(SendWhileDisconnected)]
    {
      if !isConnected {
        events := events + [OnError(SendWhileDisconnected)];
        return Failed(SendWhileDisconnected);
      }
      r := Done;
    }

    /** `read`: fails while disconnected, is a no-op while reading, otherwise starts reading. */
    method Read() returns (r: Status)
      requires Valid()
      modifies this`isReading, this`dataInjectionInterval, this`nextIntervalId, this`events
      ensures Valid()
      ensures !old(isConnected) ==>
        r == Failed(ReadWhileDisconnected)
        && events == old(events) + [OnError(ReadWhileDisconnected)]
        && unchanged(this`isReading, this`dataInjectionInterval, this`nextIntervalId)
      ensures old(isConnected) ==> r == Done && events == old(events) && isReading
      ensures old(isConnected) && old(isReading) ==> unchanged(this`dataInjectionInterval, this`nextIntervalId)
      ensures old(isConnected) && !old(isReading) ==>
        dataInjectionInterval == Some(old(nextIntervalId)) && nextIntervalId == old(nextIntervalId) + 1
    {
      if !isConnected {
        events := events + [OnError(ReadWhileDisconnected)];
        return Failed(ReadWhileDisconnected);
      }
      if isReading {
        return Done;
      }
      isReading := true;
      StartDataInjection();
      r := Done;
    }

    /** `stopReading`: not reading, and no interval. */
    method StopReading()
      requires Valid()
      modifies this`isReading, this`dataInjectionInterval
      ensures Valid() && !isReading && dataInjectionInterval == None
    {
      isReading := false;
      StopDataInjection();
    }

    /** `disconnect`: a no-op when not connected; otherwise reading stops, then `onDisconnect` fires. */
    method Disconnect()
      requires Valid()
      modifies this`isConnected, this`isReading, this`dataInjectionInterval, this`events
      ensures Valid() && !isConnected
      ensures !old(isConnected) ==> unchanged(this`isReading, this`dataInjectionInterval) && events == old(events)
      ensures old(isConnected) ==> !isReading && dataInjectionInterval == None && events == old(events) + [OnDisconnect]
    {
      if !isConnected {
        return;
      }
      StopReading();
      isConnected := false;
      events := events + [OnDisconnect];
    }

    /** `startDataInjection`: arms the interval unless one exists. */
    method StartDataInjection()
      modifies this`dataInjectionInterval, this`nextIntervalId
      ensures old(dataInjectionInterval).Some? ==> unchanged(this`dataInjectionInterval, this`nextIntervalId)
      ensures old(dataInjectionInterval).None? ==>
        dataInjectionInterval == Some(old(nextIntervalId)) && nextIntervalId == old(nextIntervalId) + 1
    {
      if dataInjectionInterval.Some? {
        return;
      }
      dataInjectionInterval := Some(nextIntervalId);
      nextIntervalId := nextIntervalId + 1;
    }

    /**
     * `listAvailableDevices`: the three simulated devices, whatever the
     * state; each has a name and an address and no two share an id.
     */
    method ListAvailableDevices() returns (r: seq<BluetoothDevice>)
      ensures r == MockDevices
      ensures |r| == 3
      ensures forall i, j :: 0 <= i < j < |r| ==> r[i].id != r[j].id
      ensures forall i :: 0 <= i < |r| ==> r[i].name.Some? && r[i].address.Some?
    {
      r := MockDevices;
    }

    /** `stopDataInjection`: clears the interval if there is one. */
    method StopDataInjection()
      modifies this`dataInjectionInterval
      ensures dataInjectionInterval == None
    {
      if dataInjectionInterval.Some? {
        dataInjectionInterval := None;
      }
    }

    /**
     * One firing of the injection interval: a sentence goes to `onData`
     * only while connected and reading. In every state the simulator can
     * reach, a live interval means both hold, so every firing injects.
     */
    method InjectionTick(encode: string -> seq<byte>, utcTime: string, latitude: string, longitude: string, rtk: bool)
      requires dataInjectionInterval.Some?
      modifies this`events
      ensures events == old(events)
        + (if isConnected && isReading then [OnData(encode(GenerateNmeaGgaSentence(utcTime, latitude, longitude, rtk)))] else [])
      ensures Valid() ==> events == old(events) + [OnData(encode(GenerateNmeaGgaSentence(utcTime, latitude, longitude, rtk)))]
    {
      if !isConnected || !isReading {
        return;
      }
      var sentence := GenerateNmeaGgaSentence(utcTime, latitude, longitude, rtk);
      events := events + [OnData(encode(sentence))];
    }
  }
}
