/**
 * The EML recorder: while a project is open it subscribes to the EML
 * service; each line, if the project has an active layer, is shown in a
 * confirmation dialog with the GPS sentence of the moment, and a confirmed
 * reading is appended to the active layer and the project saved. Without
 * an active layer a warning toast appears, once until a layer exists.
 *
 * The clock, the GPS service's last sentence and its time, the dialog's
 * answer, the generated ids and the save callback's outcome are
 * parameters; the projects handed to the save callback are logged.
 */
module EmlRecorder {
  import opened Text
  import opened Lifecycle
  import opened ProjectTypes
  import ActiveLayer
  import Toast
  import EmlService

  const GpsStaleThresholdMs := 5000
  const NoLayerMessage := "Create a layer first to record EML data"
  const WarningToastType := "warning"
  const WarningDismissMs := 5000

  /** The props of the warning toast. */
  const NoLayerProps: Toast.Props := map["message" := NoLayerMessage, "type" := WarningToastType]

  /** What the point dialog answers; a dismissed dialog answers nothing. */
  datatype DialogResult = DialogResult(confirmed: bool, manualPosition: Option<ManualPosition>)

  /** The point dialog's props: the EML line, the GPS sentence and the layer's name. */
  datatype PointDialog = PointDialog(emlRaw: string, gpsRaw: string, layerName: string)

  /** The GPS sentence recorded with a reading: the last one if it is under five seconds old, else empty. */
  function GpsNmea(now: int, lastGpsUpdateTime: int, lastRawNmea: Option<string>): (r: string)
    ensures now - lastGpsUpdateTime >= GpsStaleThresholdMs ==> r == ""
    ensures now - lastGpsUpdateTime < GpsStaleThresholdMs && lastRawNmea.Some? ==> r == lastRawNmea.value
    ensures lastRawNmea.None? ==> r == ""
  {
    var isGpsFresh := now - lastGpsUpdateTime < GpsStaleThresholdMs;
    if isGpsFresh && lastRawNmea.Some? then lastRawNmea.value else ""
  }

  /** The layers with the reading appended to those with the given id. */
  function AddReading(layers: seq<Layer>, layerId: string, reading: EmlReading): (r: seq<Layer>)
    ensures |r| == |layers|
    ensures forall k :: 0 <= k < |r| ==> r[k].id == layers[k].id && r[k].name == layers[k].name && r[k].visible == layers[k].visible
    ensures forall k :: 0 <= k < |r| && layers[k].id != layerId ==> r[k] == layers[k]
    ensures forall k :: 0 <= k < |r| && layers[k].id == layerId ==> r[k].objects == layers[k].objects + [reading]
  {
    if layers == [] then []
    else
      var l := layers[0];
      [if l.id == layerId then l.(objects := l.objects + [reading]) else l] + AddReading(layers[1..], layerId, reading)
  }

  /** The readings of all layers. */
  function TotalReadings(layers: seq<Layer>): nat {
    if layers == [] then 0 else |layers[0].objects| + TotalReadings(layers[1..])
  }

  /** How many layers carry the id. */
  function LayersWithId(layers: seq<Layer>, id: string): nat {
    if layers == [] then 0 else (if layers[0].id == id then 1 else 0) + LayersWithId(layers[1..], id)
  }

  /** Recording adds one reading per layer with the active id, and no other reading. */
  lemma {:induction false} AddReadingCount(layers: seq<Layer>, layerId: string, reading: EmlReading)
    ensures TotalReadings(AddReading(layers, layerId, reading)) == TotalReadings(layers) + LayersWithId(layers, layerId)
    decreases |layers|
  {
    if layers != [] {
      AddReadingCount(layers[1..], layerId, reading);
      assert AddReading(layers, layerId, reading)[1..] == AddReading(layers[1..], layerId, reading);
    }
  }

  /** The layer ids do not change, so the active layer stays the one the store would pick. */
  lemma AddReadingKeepsActiveLayer(project: ProjectMetadata, current: Option<string>, layerId: string, reading: EmlReading)
    ensures var updated := project.(layers := AddReading(project.layers, layerId, reading));
      ActiveLayer.ValidatedId(current, Some(updated)) == ActiveLayer.ValidatedId(current, Some(project))
  {
    var updated := project.(layers := AddReading(project.layers, layerId, reading));
    assert forall id :: ActiveLayer.HasLayer(updated.layers, id) <==> ActiveLayer.HasLayer(project.layers, id) by {
      forall id ensures ActiveLayer.HasLayer(updated.layers, id) <==> ActiveLayer.HasLayer(project.layers, id) {
        var f := ActiveLayer.FindLayer(project.layers, id);
        var g := ActiveLayer.FindLayer(updated.layers, id);
        if f.Some? { assert updated.layers[f.value].id == id; }
        if g.Some? { assert project.layers[g.value].id == id; }
      }
    }
  }

  class Recorder {
    const service: EmlService.Service
    const store: ActiveLayer.Store
    const toaster: Toast.Toaster
    /** The toast component the warning uses. */
    const toastComponent: nat
    /** The id of the recorder's subscription, while it has one. */
    var unsubscribe: Option<string>
    var noLayerWarningShown: bool
    var dialogs: seq<PointDialog>
    /** The projects handed to the save callback, oldest first. */
    var saves: seq<ProjectMetadata>

    constructor(service: EmlService.Service, store: ActiveLayer.Store, toaster: Toast.Toaster, toastComponent: nat)
      ensures this.service == service && this.store == store && this.toaster == toaster && this.toastComponent == toastComponent
      ensures unsubscribe == None && !noLayerWarningShown && dialogs == [] && saves == []
    {
      this.service := service;
      this.store := store;
      this.toaster := toaster;
      this.toastComponent := toastComponent;
      unsubscribe := None;
      noLayerWarningShown := false;
      dialogs := [];
      saves := [];
    }

    /**
     * `handleEmlData`. Without a project nothing happens. Without an
     * active layer the warning toast is shown unless it already was.
     * Otherwise the warning flag resets, the dialog opens, and a
     * confirmed reading goes to the active layer and the updated project
     * to the save callback, whose failure is swallowed.
     */
    method HandleEmlData(data: string, project: Option<ProjectMetadata>, now: int, lastGpsUpdateTime: int,
                         lastRawNmea: Option<string>, result: Option<DialogResult>,
                         readingId: string, readingEpoch: int, toastId: string)
      requires toaster.Valid()
      requires Toast.FindByComponent(toaster.toasts, toastComponent).None? ==> Toast.FindById(toaster.toasts, toastId).None?
      modifies this`noLayerWarningShown, this`dialogs, this`saves, toaster
      ensures toaster.Valid()
      ensures project.None? ==>
        unchanged(this) && unchanged(toaster)
      ensures project.Some? && store.GetActiveLayer(project).None? ==>
        noLayerWarningShown && dialogs == old(dialogs) && saves == old(saves)
        && (old(noLayerWarningShown) ==> unchanged(toaster))
        && (!old(noLayerWarningShown) ==>
              Toast.FindByComponent(toaster.toasts, toastComponent).Some?
              && toaster.toasts[Toast.FindByComponent(toaster.toasts, toastComponent).value].props == NoLayerProps
              && toaster.toasts[Toast.FindByComponent(toaster.toasts, toastComponent).value].autoDismiss == Toast.After(WarningDismissMs))
      ensures project.Some? && store.GetActiveLayer(project).Some? ==>
        var layer := store.GetActiveLayer(project).value;
        var gps := GpsNmea(now, lastGpsUpdateTime, lastRawNmea);
        !noLayerWarningShown && unchanged(toaster)
        && dialogs == old(dialogs) + [PointDialog(data, gps, layer.name)]
        && saves == old(saves) + if result.Some? && result.value.confirmed then
             [project.value.(layers := AddReading(project.value.layers, layer.id,
               EmlReading(readingId, readingEpoch, data, gps, result.value.manualPosition)))]
           else []
    {
      if project.None? {
        return;
      }
      var activeLayer := store.GetActiveLayer(project);
      if activeLayer.None? {
        if !noLayerWarningShown {
          var _ := toaster.Show(toastComponent, NoLayerProps, Toast.After(WarningDismissMs), toastId);
          noLayerWarningShown := true;
        }
        return;
      }
      noLayerWarningShown := false;
      var gpsNmea := GpsNmea(now, lastGpsUpdateTime, lastRawNmea);
      dialogs := dialogs + [PointDialog(data, gpsNmea, activeLayer.value.name)];
      if result.None? || !result.value.confirmed {
        return;
      }
      var emlReading := EmlReading(readingId, readingEpoch, data, gpsNmea, result.value.manualPosition);
      var updatedLayers := AddReading(project.value.layers, activeLayer.value.id, emlReading);
      saves := saves + [project.value.(layers := updatedLayers)];
    }

    /** `startRecording`: a no-op while subscribed or without a project; otherwise the recorder subscribes. */
    method StartRecording(project: Option<ProjectMetadata>, callbackId: string)
      requires service.Valid()
      modifies this`unsubscribe, service`callbacks
      ensures service.Valid()
      ensures old(unsubscribe).Some? || project.None? ==> unsubscribe == old(unsubscribe) && service.callbacks == old(service.callbacks)
      ensures old(unsubscribe).None? && project.Some? ==>
        unsubscribe == Some(callbackId) && service.callbacks == Put(old(service.callbacks), callbackId, AsyncListener<string>())
    {
      if unsubscribe.Some? {
        return;
      }
      if project.None? {
        return;
      }
      var id := service.SubscribeToData(callbackId, AsyncListener<string>().throws, AsyncListener<string>().hasOnError);
      unsubscribe := Some(id);
    }

    /** `stopRecording`: the subscription, if any, is removed and forgotten. */
    method StopRecording()
      requires service.Valid()
      modifies this`unsubscribe, service`callbacks
      ensures service.Valid() && unsubscribe == None
      ensures service.callbacks == if old(unsubscribe).Some? then Remove(old(service.callbacks), old(unsubscribe).value) else old(service.callbacks)
    {
      if unsubscribe.Some? {
        service.Unsubscribe(unsubscribe.value);
        unsubscribe := None;
      }
    }

    /** The project watcher (also run once at creation): a project starts recording, none stops it. */
    method ProjectChanged(newProject: Option<ProjectMetadata>, callbackId: string)
      requires service.Valid()
      modifies this`unsubscribe, service`callbacks
      ensures service.Valid()
      ensures newProject.None? ==> unsubscribe == None
      ensures newProject.Some? ==> unsubscribe == if old(unsubscribe).Some? then old(unsubscribe) else Some(callbackId)
    {
      if newProject.Some? {
        StartRecording(newProject, callbackId);
      } else {
        StopRecording();
      }
    }
  }
}
