/**
 * The active-layer store: the id of the layer EML readings go to, kept in
 * memory only, and the rule that re-selects a layer when the project's
 * layers change.
 */
module ActiveLayer {
  import opened Text
  import opened ProjectTypes

  /** Some layer of `layers` has id `id`. */
  predicate HasLayer(layers: seq<Layer>, id: string) {
    exists i :: 0 <= i < |layers| && layers[i].id == id
  }

  /** `layers.find(layer => layer.id === id)`: the first layer with that id, if any. */
  function FindLayer(layers: seq<Layer>, id: string): (r: Option<nat>)
    ensures r.None? <==> !HasLayer(layers, id)
    ensures r.Some? ==>
      r.value < |layers| && layers[r.value].id == id
      && forall i :: 0 <= i < r.value ==> layers[i].id != id
  {
    if layers == [] then None
    else if layers[0].id == id then Some(0)
    else
      var k := FindLayer(layers[1..], id);
      assert forall i :: 1 <= i < |layers| ==> layers[i] == layers[1..][i - 1];
      if k.None? then None else Some(k.value + 1)
  }

  /**
   * The id `validateActiveLayer` leaves selected: none without a project
   * or without layers; the current id while it names a layer; otherwise
   * the first layer's id.
   */
  function ValidatedId(current: Option<string>, project: Option<ProjectMetadata>): (r: Option<string>)
    ensures project.None? || project.value.layers == [] ==> r == None
    ensures project.Some? && project.value.layers != [] ==>
      r.Some? && HasLayer(project.value.layers, r.value)
    ensures project.Some? && current.Some? && HasLayer(project.value.layers, current.value) ==> r == current
    ensures project.Some? && project.value.layers != [] && !(current.Some? && HasLayer(project.value.layers, current.value)) ==>
      r == Some(project.value.layers[0].id)
  {
    if project.None? || |project.value.layers| == 0 then None
    else if current.None? then Some(project.value.layers[0].id)
    else if !HasLayer(project.value.layers, current.value) then Some(project.value.layers[0].id)
    else current
  }

  /**
   * Validation is idempotent, and once validated the store finds a layer
   * unless the chosen layer's id is empty (an empty id is falsy).
   */
  lemma ValidatedIdStable(current: Option<string>, project: Option<ProjectMetadata>)
    ensures ValidatedId(ValidatedId(current, project), project) == ValidatedId(current, project)
    ensures var id := ValidatedId(current, project);
      id.Some? && id.value != [] ==> FindLayer(project.value.layers, id.value).Some?
  {
    var id := ValidatedId(current, project);
    if project.Some? && project.value.layers != [] {
      assert HasLayer(project.value.layers, id.value);
    }
  }

  class Store {
    var activeLayerId: Option<string>

    constructor()
      ensures activeLayerId == None
    {
      activeLayerId := None;
    }

    method SetActiveLayer(layerId: Option<string>)
      modifies this
      ensures activeLayerId == layerId
    {
      activeLayerId := layerId;
    }

    method ClearActiveLayer()
      modifies this
      ensures activeLayerId == None
    {
      activeLayerId := None;
    }

    /**
     * `getActiveLayer`: nothing without a project or with no (or an empty)
     * id selected; otherwise the first of the project's layers with that id.
     */
    function GetActiveLayer(project: Option<ProjectMetadata>): (r: Option<Layer>)
      reads this
      ensures project.None? || activeLayerId.None? || activeLayerId.value == [] ==> r == None
      ensures r.Some? ==> r.value in project.value.layers && Some(r.value.id) == activeLayerId
      ensures project.Some? && activeLayerId.Some? && activeLayerId.value != [] ==>
        (r.Some? <==> HasLayer(project.value.layers, activeLayerId.value))
    {
      if project.None? || activeLayerId.None? || activeLayerId.value == [] then None
      else
        var k := FindLayer(project.value.layers, activeLayerId.value);
        if k.None? then None else Some(project.value.layers[k.value])
    }

    /** `validateActiveLayer`: the selection becomes the validated id. */
    method ValidateActiveLayer(project: Option<ProjectMetadata>)
      modifies this
      ensures activeLayerId == ValidatedId(old(activeLayerId), project)
    {
      if project.None? {
        ClearActiveLayer();
        return;
      }
      var layers := project.value.layers;
      if |layers| == 0 {
        ClearActiveLayer();
        return;
      }
      if activeLayerId.None? {
        activeLayerId := Some(layers[0].id);
        return;
      }
      var found := FindLayer(layers, activeLayerId.value);
      if found.None? {
        activeLayerId := Some(layers[0].id);
      }
    }
  }
}
