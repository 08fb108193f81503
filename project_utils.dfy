/** A project always carries at least one area of interest; a new one is named "AOI 1". */
module ProjectUtils {
  import opened Text
  import opened ProjectTypes

  const DefaultAoiName := "AOI 1"

  /** `createDefaultAOI`: an area with no results; the random UUID is a parameter. */
  function CreateDefaultAoi(id: string, name: string): (r: AreaOfInterest)
    ensures r.id == id && r.name == name && r.results == []
  {
    AreaOfInterest(id, name, [])
  }

  /**
   * `ensureAreasExist`: a project with no (or no non-empty) list of areas
   * gets the single default area; any other project comes back unchanged.
   */
  function EnsureAreasExist(project: ProjectMetadata, freshId: string): (r: ProjectMetadata)
    ensures r.areas.Some? && |r.areas.value| >= 1
    ensures project.areas.Some? && project.areas.value != [] ==> r == project
    ensures (project.areas.None? || project.areas.value == []) ==>
      r == project.(areas := Some([CreateDefaultAoi(freshId, DefaultAoiName)]))
  {
    if project.areas.None? || |project.areas.value| == 0 then
      project.(areas := Some([CreateDefaultAoi(freshId, DefaultAoiName)]))
    else
      project
  }

  /** Ensuring twice is ensuring once, whatever id the second call draws; and only the areas can change. */
  lemma EnsureAreasExistIdempotent(project: ProjectMetadata, id1: string, id2: string)
    ensures EnsureAreasExist(EnsureAreasExist(project, id1), id2) == EnsureAreasExist(project, id1)
    ensures EnsureAreasExist(project, id1).(areas := project.areas) == project
  {
  }
}
