/**
 * The project records the stores and the recorder work on: a project's
 * metadata with its areas of interest and its layers, and the EML readings
 * a layer holds.
 */
module ProjectTypes {
  import opened Text

  /** A result attached to an area of interest; its fields are not part of this model. */
  datatype AoiResult = AoiResult(payload: string)

  datatype AreaOfInterest = AreaOfInterest(id: string, name: string, results: seq<AoiResult>)

  /** A position the user placed by hand instead of the GPS fix. */
  datatype ManualPosition = ManualPosition(x: real, y: real)

  /** One recorded EML reading: its raw EML line and the raw NMEA sentence current at the time. */
  datatype EmlReading = EmlReading(id: string, epoch: int, eml: string, gps: string, manualPosition: Option<ManualPosition>)

  datatype Layer = Layer(id: string, name: string, visible: bool, objects: seq<EmlReading>)

  /**
   * A project. `areas` may be missing from a record read back from storage,
   * hence the option.
   */
  datatype ProjectMetadata = ProjectMetadata(
    id: string,
    name: string,
    clientName: string,
    jobCode: string,
    dateCreated: int,
    areas: Option<seq<AreaOfInterest>>,
    layers: seq<Layer>)
}
