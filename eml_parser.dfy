/**
 * The comma-separated reading a Radiodetection locator streams, decoded by
 * fixed field positions, and the display form of its frequency.
 */
module EmlParser {
  import opened Text

  const ModeField: nat := 2
  const FrequencyField: nat := 3
  const DepthUnitField: nat := 8
  const DepthValueField: nat := 9
  const CurrentUnitField: nat := 10
  const CurrentValueField: nat := 11
  const SignalUnitField: nat := 12
  const SignalValueField: nat := 13
  const MinFieldCount: nat := 14

  const Mega: nat := 1000000
  const Kilo: nat := 1000

  datatype ParsedEmlData = ParsedEmlData(
    mode: string,
    frequency: nat,
    frequencyDisplay: string,
    depth: real,
    depthUnit: string,
    current: real,
    currentUnit: string,
    signal: real,
    signalUnit: string,
    isValid: bool)

  /** The record returned for input that cannot be decoded. */
  const InvalidResult := ParsedEmlData("", 0, "-", 0.0, "", 0.0, "", 0.0, "", false)

  /** `parseFrequency`: the value of the leading run of decimal digits, 0 when there is none. */
  function ParseFrequency(freq: string): (hz: nat)
    ensures freq == [] || !IsDigit(freq[0]) ==> hz == 0
  {
    var n := DigitPrefixLength(freq);
    if n == 0 then 0 else DigitsValue(freq[..n])
  }

  /** A decimal rendering followed by a non-digit suffix reads back as the number: "200000Hz" is 200000. */
  lemma ParseFrequencyPrefix(n: nat, suffix: string)
    requires suffix == [] || !IsDigit(suffix[0])
    ensures ParseFrequency(NatToString(n) + suffix) == n
  {
    var s := NatToString(n) + suffix;
    DigitPrefixAll(NatToString(n));
    DigitPrefixStops(NatToString(n), suffix);
    assert s[..|NatToString(n)|] == NatToString(n);
    NatToStringValue(n);
  }

  lemma {:induction false} DigitPrefixStops(d: string, suffix: string)
    requires AllDigits(d) && (suffix == [] || !IsDigit(suffix[0]))
    ensures DigitPrefixLength(d + suffix) == |d|
    decreases |d|
  {
    if d != [] {
      assert (d + suffix)[1..] == d[1..] + suffix;
      DigitPrefixStops(d[1..], suffix);
    }
  }

  lemma ParseFrequencyExample()
    ensures ParseFrequency("200000Hz") == 200000
  {
    assert NatToString(200000) == "200000";
    ParseFrequencyPrefix(200000, "Hz");
    assert "200000Hz" == NatToString(200000) + "Hz";
  }

  /** The value in tenths of a unit, rounded half up, as `toFixed(1)` rounds a value that is not a tie in binary. */
  function Tenths(hz: nat, unit: nat): nat
    requires unit > 0
  {
    (10 * hz + unit / 2) / unit
  }

  /** `x.toFixed(1)` for x = hz / unit: the tenths written with one decimal digit. */
  function OneDecimal(hz: nat, unit: nat): string
    requires unit > 0
  {
    var tenths := Tenths(hz, unit);
    NatToString(tenths / 10) + "." + [DigitChar(tenths % 10)]
  }

  /** `formatFrequency`: MHz from 1 000 000 Hz, kHz from 1000 Hz, otherwise Hz; whole multiples show no decimal. */
  function FormatFrequency(hz: nat): string {
    if hz >= Mega then
      (if hz % Mega == 0 then NatToString(hz / Mega) else OneDecimal(hz, Mega)) + " MHz"
    else if hz >= Kilo then
      (if hz % Kilo == 0 then NatToString(hz / Kilo) else OneDecimal(hz, Kilo)) + " kHz"
    else NatToString(hz) + " Hz"
  }

  /** The unit suffix is chosen by magnitude. */
  lemma FormatUnit(hz: nat)
    ensures hz >= Mega ==> EndsWith(FormatFrequency(hz), " MHz")
    ensures Kilo <= hz < Mega ==> EndsWith(FormatFrequency(hz), " kHz")
    ensures hz < Kilo ==> FormatFrequency(hz) == NatToString(hz) + " Hz"
  {
  }

  /** Whole multiples of the unit are written without a decimal point. */
  lemma FormatWholeUnits(k: nat)
    ensures k >= 1 ==> FormatFrequency(k * Mega) == NatToString(k) + " MHz"
    ensures 1 <= k < 1000 ==> FormatFrequency(k * Kilo) == NatToString(k) + " kHz"
  {
    assert (k * Mega) / Mega == k && (k * Mega) % Mega == 0;
    assert (k * Kilo) / Kilo == k && (k * Kilo) % Kilo == 0;
  }

  lemma FormatExamples()
    ensures FormatFrequency(200000) == "200 kHz"
    ensures FormatFrequency(1500000) == "1.5 MHz"
    ensures FormatFrequency(999) == "999 Hz"
    ensures FormatFrequency(33000) == "33 kHz"
  {
    assert NatToString(200) == "200";
    assert NatToString(1) == "1";
    assert NatToString(999) == "999";
    assert NatToString(33) == "33";
  }

  /** The MHz display is the nearest tenth: within half a tenth of hz / 1 000 000. */
  lemma TenthsNearestMega(hz: nat)
    ensures -0.05 < Tenths(hz, Mega) as real / 10.0 - hz as real / 1000000.0 <= 0.05
  {
    var t := Tenths(hz, Mega);
    assert t * Mega <= 10 * hz + Mega / 2 < t * Mega + Mega;
  }

  /** The kHz display is the nearest tenth: within half a tenth of hz / 1000. */
  lemma TenthsNearestKilo(hz: nat)
    ensures -0.05 < Tenths(hz, Kilo) as real / 10.0 - hz as real / 1000.0 <= 0.05
  {
    var t := Tenths(hz, Kilo);
    assert t * Kilo <= 10 * hz + Kilo / 2 < t * Kilo + Kilo;
  }

  /** The one-decimal text is the integer part of the tenths, a '.', and their last digit. */
  lemma OneDecimalDigits(hz: nat, unit: nat)
    requires unit > 0
    ensures var r := OneDecimal(hz, unit);
      r[..|r| - 2] == NatToString(Tenths(hz, unit) / 10)
      && r[|r| - 2] == '.'
      && DigitValue(r[|r| - 1]) == Tenths(hz, unit) % 10
  {
    var r := OneDecimal(hz, unit);
    assert r[..|r| - 2] == NatToString(Tenths(hz, unit) / 10);
  }

  /** `parseEmlString`. */
  function ParseEmlString(eml: string): (r: ParsedEmlData)
    ensures r.isValid <==> eml != [] && |Split(eml, ',')| >= MinFieldCount
    ensures !r.isValid ==> r == InvalidResult
    ensures r.isValid ==> r.frequencyDisplay == FormatFrequency(r.frequency)
  {
    if eml == [] then InvalidResult
    else
      var fields := Split(eml, ',');
      if |fields| < MinFieldCount then InvalidResult
      else
        var frequency := ParseFrequency(fields[FrequencyField]);
        ParsedEmlData(
          mode := fields[ModeField],
          frequency := frequency,
          frequencyDisplay := FormatFrequency(frequency),
          depth := OrZero(ParseFloat(fields[DepthValueField])),
          depthUnit := fields[DepthUnitField],
          current := OrZero(ParseFloat(fields[CurrentValueField])),
          currentUnit := fields[CurrentUnitField],
          signal := OrZero(ParseFloat(fields[SignalValueField])),
          signalUnit := fields[SignalUnitField],
          isValid := true)
  }

  /** A valid record takes mode, units and values from their fixed positions; non-numeric values become 0. */
  lemma ValidFields(eml: string)
    requires ParseEmlString(eml).isValid
    ensures var r, f := ParseEmlString(eml), Split(eml, ',');
      |f| >= MinFieldCount
      && r.mode == f[ModeField]
      && r.frequency == ParseFrequency(f[FrequencyField])
      && r.depthUnit == f[DepthUnitField] && r.currentUnit == f[CurrentUnitField] && r.signalUnit == f[SignalUnitField]
      && (ParseFloat(f[DepthValueField]).NaN? ==> r.depth == 0.0)
      && (ParseFloat(f[CurrentValueField]).NaN? ==> r.current == 0.0)
      && (ParseFloat(f[SignalValueField]).NaN? ==> r.signal == 0.0)
      && (ParseFloat(f[DepthValueField]).Finite? ==> r.depth == ParseFloat(f[DepthValueField]).v)
      && (ParseFloat(f[CurrentValueField]).Finite? ==> r.current == ParseFloat(f[CurrentValueField]).v)
      && (ParseFloat(f[SignalValueField]).Finite? ==> r.signal == ParseFloat(f[SignalValueField]).v)
  {
  }

  /** The empty string and any text with fewer than thirteen commas give the invalid record. */
  lemma ShortInputInvalid(eml: string)
    requires Count(eml, ',') < MinFieldCount - 1
    ensures ParseEmlString(eml) == InvalidResult
  {
    SplitLength(eml, ',');
  }
}
