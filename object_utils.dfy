/**
 * Creating EML traces and naming the next object of a kind: the kind's
 * label followed by one more than the number of objects of that kind.
 */
module ObjectUtils {
  import opened Text

  /** The object kinds the label table knows; traces are the only one. */
  type ObjectType = s: string | s == "emlTrace" witness "emlTrace"

  const EmlTraceType: ObjectType := "emlTrace"

  /** The display label of each kind. */
  function TypeLabel(t: ObjectType): string {
    "Layer"
  }

  /**
   * A project object in the form the naming rule reads: its id, its name,
   * its `type` tag, its visibility and its points (whose shape the rule
   * never looks at).
   */
  datatype ProjectObject<P> = ProjectObject(id: string, name: string, kind: string, visible: bool, points: seq<P>)

  /** `createEmlTrace`: a visible, empty trace with the given name; the random UUID is a parameter. */
  function CreateEmlTrace<P>(id: string, name: string): (r: ProjectObject<P>)
    ensures r.id == id && r.name == name
    ensures r.kind == EmlTraceType && r.visible && r.points == []
  {
    ProjectObject(id, name, EmlTraceType, true, [])
  }

  /** The objects whose `type` equals `t`, in order. */
  function OfKind<P>(objects: seq<ProjectObject<P>>, t: string): (r: seq<ProjectObject<P>>)
    ensures |r| <= |objects|
    ensures forall o :: o in r ==> o in objects && o.kind == t
    ensures forall o :: o in objects && o.kind == t ==> o in r
  {
    if objects == [] then []
    else (if objects[0].kind == t then [objects[0]] else []) + OfKind(objects[1..], t)
  }

  /** `getNextObjectName`: the label, a space, and the count of that kind plus one. */
  function GetNextObjectName<P>(objects: seq<ProjectObject<P>>, t: ObjectType): string {
    TypeLabel(t) + " " + NatToString(|OfKind(objects, t)| + 1)
  }

  lemma {:induction false} OfKindAppend<P>(objects: seq<ProjectObject<P>>, o: ProjectObject<P>, t: string)
    ensures OfKind(objects + [o], t) == OfKind(objects, t) + (if o.kind == t then [o] else [])
  {
    if objects != [] {
      assert (objects + [o])[1..] == objects[1..] + [o];
      OfKindAppend(objects[1..], o, t);
    } else {
      assert [o][1..] == [];
    }
  }

  /**
   * The next name of a kind counts the existing objects of that kind:
   * one more after each object of that kind is added; objects of other
   * kinds do not move it.
   */
  lemma NextNameCounts<P>(objects: seq<ProjectObject<P>>, o: ProjectObject<P>, t: ObjectType)
    ensures GetNextObjectName(objects + [o], t)
      == "Layer " + NatToString(|OfKind(objects, t)| + (if o.kind == t then 2 else 1))
  {
    KindCountAppend(objects, o, t);
  }

  /** Appending an object adds one to the count of its own kind only. */
  lemma KindCountAppend<P>(objects: seq<ProjectObject<P>>, o: ProjectObject<P>, t: string)
    ensures |OfKind(objects + [o], t)| + 1 == |OfKind(objects, t)| + (if o.kind == t then 2 else 1)
  {
    OfKindAppend(objects, o, t);
  }

  /** The first object of a kind is number one. */
  lemma FirstObjectName<P>(t: ObjectType)
    ensures GetNextObjectName<P>([], t) == "Layer 1"
  {
    assert OfKind<P>([], t) == [];
    assert NatToString(1) == [DigitChar(1)];
  }

  lemma NatToStringInjective(a: nat, b: nat)
    requires NatToString(a) == NatToString(b)
    ensures a == b
  {
    NatToStringValue(a);
    NatToStringValue(b);
  }

  /**
   * Naming a new trace with `getNextObjectName` and adding it never gives
   * the next trace the same name: the names of successive traces differ.
   */
  lemma SuccessiveTraceNamesDiffer<P>(objects: seq<ProjectObject<P>>, id: string)
    ensures var first := GetNextObjectName(objects, EmlTraceType);
      GetNextObjectName(objects + [CreateEmlTrace<P>(id, first)], EmlTraceType) != first
  {
    var first := GetNextObjectName(objects, EmlTraceType);
    var trace := CreateEmlTrace<P>(id, first);
    var n := |OfKind(objects, EmlTraceType)|;
    OfKindAppend(objects, trace, EmlTraceType);
    var second := GetNextObjectName(objects + [trace], EmlTraceType);
    assert second == "Layer " + NatToString(n + 2);
    if second == first {
      assert second[6..] == NatToString(n + 2);
      assert first[6..] == NatToString(n + 1);
      NatToStringInjective(n + 1, n + 2);
    }
  }
}
