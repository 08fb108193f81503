/** The GGA fix-quality indicator and its human-readable labels. */
module FixQuality {
  import opened Text

  /** The fix-quality values a GGA sentence can carry. */
  datatype GpsFixQuality =
    | Invalid | GpsFix | DgpsFix | PpsFix | RtkFix | RtkFloat | Estimated | Manual | Simulation

  function Value(q: GpsFixQuality): (n: nat)
    ensures n <= 8
  {
    match q
    case Invalid => 0
    case GpsFix => 1
    case DgpsFix => 2
    case PpsFix => 3
    case RtkFix => 4
    case RtkFloat => 5
    case Estimated => 6
    case Manual => 7
    case Simulation => 8
  }

  /** Distinct enum members have distinct values. */
  lemma ValueInjective(a: GpsFixQuality, b: GpsFixQuality)
    requires Value(a) == Value(b)
    ensures a == b
  {
  }

  /** The label table, keyed by the numeric value. */
  const FixQualityLabels: map<int, string> := map[
    0 := "Invalid",
    1 := "GPS",
    2 := "DGPS",
    3 := "PPS",
    4 := "RTK FIX",
    5 := "Float",
    6 := "Estimated",
    7 := "Manual",
    8 := "Sim"
  ]

  /** The table key a JavaScript number selects: only whole numbers name a key of the table. */
  function Key(q: Number): Option<int> {
    if q.Finite? && q.v == q.v.Floor as real then Some(q.v.Floor) else None
  }

  /** `getFixQualityLabel`: the table entry, or "Unknown" when there is none. */
  function GetFixQualityLabel(q: Number): (name: string)
    ensures Key(q).Some? && Key(q).value in FixQualityLabels ==> name == FixQualityLabels[Key(q).value]
    ensures !(Key(q).Some? && Key(q).value in FixQualityLabels) ==> name == "Unknown"
  {
    var k := Key(q);
    if k.Some? && k.value in FixQualityLabels then FixQualityLabels[k.value] else "Unknown"
  }

  /** Every enum member has an entry, and the table has no other key. */
  lemma TableCoversEnum()
    ensures forall q: GpsFixQuality :: Value(q) in FixQualityLabels
    ensures forall k :: k in FixQualityLabels ==> exists q: GpsFixQuality :: Value(q) == k
  {
    forall k | k in FixQualityLabels ensures exists q: GpsFixQuality :: Value(q) == k {
      var q :=
        if k == 0 then Invalid else if k == 1 then GpsFix else if k == 2 then DgpsFix
        else if k == 3 then PpsFix else if k == 4 then RtkFix else if k == 5 then RtkFloat
        else if k == 6 then Estimated else if k == 7 then Manual else Simulation;
      assert Value(q) == k;
    }
  }

  /** The label of an enum member is its table entry, never "Unknown". */
  lemma LabelOfMember(q: GpsFixQuality)
    ensures GetFixQualityLabel(Finite(Value(q) as real)) == FixQualityLabels[Value(q)]
    ensures GetFixQualityLabel(Finite(Value(q) as real)) != "Unknown"
  {
    assert Key(Finite(Value(q) as real)) == Some(Value(q));
  }

  lemma SomeLabels()
    ensures GetFixQualityLabel(Finite(0.0)) == "Invalid"
    ensures GetFixQualityLabel(Finite(4.0)) == "RTK FIX"
    ensures GetFixQualityLabel(Finite(5.0)) == "Float"
    ensures GetFixQualityLabel(Finite(8.0)) == "Sim"
  {
    assert Key(Finite(0.0)) == Some(0);
    assert Key(Finite(4.0)) == Some(4);
    assert Key(Finite(5.0)) == Some(5);
    assert Key(Finite(8.0)) == Some(8);
  }

  /** Values outside 0..8, fractions and NaN all read "Unknown". */
  lemma UnknownOutsideTable(q: Number)
    requires q.NaN? || q.v < 0.0 || q.v > 8.0 || q.v != q.v.Floor as real
    ensures GetFixQualityLabel(q) == "Unknown"
  {
  }
}
