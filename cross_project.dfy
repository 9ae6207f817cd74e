/** The cross-project detector: was a CSI volume provisioned in a project other
    than the configured volume project? A best-effort check: a handle that does
    not parse is reported as not cross-project. */
module CrossProject {
  import opened Wrappers
  import opened VolumeIdentity

  function IsVolumeCreatedCrossProjects(volumeProject: string, handle: string): (cross: bool) {
    match ParseHandle(handle)
    case None => false
    case Some(h) => h.project != volumeProject
  }

  /** Exactly the handles of well-formed shape whose project differs from the
      volume project are cross-project. */
  lemma CrossProjectsIff(volumeProject: string, handle: string)
    ensures IsVolumeCreatedCrossProjects(volumeProject, handle)
        <==> exists h :: ValidHandle(h) && FormatHandle(h) == handle && h.project != volumeProject
  {
    if h :| ValidHandle(h) && FormatHandle(h) == handle && h.project != volumeProject {
      ParseFormatHandle(h);
    }
    if ParseHandle(handle).Some? {
      FormatParseHandle(handle);
    }
  }

  /** Cross-project detection on a well-formed handle compares its project. */
  lemma CrossProjectsOfHandle(volumeProject: string, h: VolumeHandle)
    requires ValidHandle(h)
    ensures IsVolumeCreatedCrossProjects(volumeProject, FormatHandle(h)) <==> h.project != volumeProject
  {
    ParseFormatHandle(h);
  }

  /** A bare disk name is never reported as cross-project. */
  lemma BareNameNotCrossProjects(volumeProject: string, handle: string)
    requires '/' !in handle
    ensures !IsVolumeCreatedCrossProjects(volumeProject, handle)
  {
    BareNameIsNotHandle(handle);
  }

  /** Once SetVolumeID has rewritten a handle for a configured volume project,
      the volume is no longer cross-project. */
  lemma SetVolumeIDNotCrossProjects(pv: PersistentVolume, volumeProject: string, volumeID: string)
    requires pv.CSI? && volumeProject != "" && '/' !in volumeProject && ValidSegment(volumeID)
    requires SetVolumeID(pv, volumeProject, volumeID).Ok?
    ensures !IsVolumeCreatedCrossProjects(volumeProject, SetVolumeID(pv, volumeProject, volumeID).value.volumeHandle)
  {
    SetThenGetCSI(pv, volumeProject, volumeID);
  }
}
