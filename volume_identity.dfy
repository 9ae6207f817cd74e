/** The volume identity codec: reading the snapshotter's volume ID out of a
    persistent volume (GetVolumeID) and writing a new one into it
    (SetVolumeID), for the legacy `gcePersistentDisk.pdName` field and for
    volumes of the GKE persistent-disk CSI driver, whose handle has the form
    `projects/<project>/zones/<zone>/disks/<disk>`. */
module VolumeIdentity {
  import opened Wrappers
  import opened Strings

  /** The CSI driver whose volume handles name GCE persistent disks. */
  const PdCsiDriver := "pd.csi.storage.gke.io"

  /** The part of a persistent volume's spec the codec looks at. */
  datatype PersistentVolume =
    | Legacy(pdName: Option<string>)        // spec.gcePersistentDisk present
    | CSI(driver: string, volumeHandle: string,
          fsType: string, volumeAttributes: map<string, string>)  // spec.csi present
    | Neither                               // no volume source this codec knows

  /** A parsed CSI volume handle. */
  datatype VolumeHandle = VolumeHandle(project: string, zone: string, disk: string)

  /** One field of a handle: non-empty and free of the path separator. */
  predicate ValidSegment(s: string) {
    s != "" && '/' !in s
  }

  predicate ValidHandle(h: VolumeHandle) {
    ValidSegment(h.project) && ValidSegment(h.zone) && ValidSegment(h.disk)
  }

  /** The fields of a handle, in order. */
  function HandleFields(h: VolumeHandle): (fields: seq<string>) {
    ["projects", h.project, "zones", h.zone, "disks", h.disk]
  }

  /** `projects/<project>/zones/<zone>/disks/<disk>`. */
  function FormatHandle(h: VolumeHandle): (handle: string) {
    Join(HandleFields(h), "/")
  }

  /** Parses `projects/<P>/zones/<Z>/disks/<D>`; any other shape is None. */
  function ParseHandle(s: string): (h: Option<VolumeHandle>) {
    var f := Split(s, "/");
    if |f| == 6 && f[0] == "projects" && f[2] == "zones" && f[4] == "disks"
       && f[1] != "" && f[3] != "" && f[5] != ""
    then Some(VolumeHandle(f[1], f[3], f[5]))
    else None
  }

  /** The volume is one this snapshotter is responsible for. */
  predicate IsOwnVolume(pv: PersistentVolume) {
    pv.Legacy? || (pv.CSI? && pv.driver == PdCsiDriver)
  }

  /** The snapshotter's volume ID of `pv`: "" without error for a volume that
      is not its own, an error for its own volume with a missing name or an
      ill-formed handle. */
  function GetVolumeID(pv: PersistentVolume): (r: Result<string>)
    ensures r.Err? ==> r.error == MalformedVolume
  {
    match pv
    case Neither => Ok("")
    case Legacy(pdName) =>
      if pdName.Some? && pdName.value != "" then Ok(pdName.value) else Err(MalformedVolume)
    case CSI(driver, handle, _, _) =>
      if driver != PdCsiDriver then Ok("")
      else
        match ParseHandle(handle)
        case Some(h) => Ok(h.disk)
        case None => Err(MalformedVolume)
  }

  /** The project written into a rebuilt handle: the configured volume project,
      or the handle's own project when none is configured. */
  function EffectiveProject(volumeProject: string, h: VolumeHandle): (project: string) {
    if volumeProject != "" then volumeProject else h.project
  }

  /** `pv` with its volume ID replaced by `volumeID`. A CSI handle keeps its
      zone and takes the effective project; every other field is kept. */
  function SetVolumeID(pv: PersistentVolume, volumeProject: string, volumeID: string)
    : (r: Result<PersistentVolume>)
    ensures r.Ok? <==> IsOwnVolume(pv) && (pv.CSI? ==> ParseHandle(pv.volumeHandle).Some?)
    ensures r.Err? ==> r.error == (if IsOwnVolume(pv) then MalformedVolume else UnsupportedVolumeType)
    ensures r.Ok? && pv.Legacy? ==> r.value == Legacy(Some(volumeID))
    ensures r.Ok? && pv.CSI? ==>
              r.value.CSI? && r.value.driver == pv.driver && r.value.fsType == pv.fsType
              && r.value.volumeAttributes == pv.volumeAttributes
  {
    match pv
    case Neither => Err(UnsupportedVolumeType)
    case Legacy(_) => Ok(Legacy(Some(volumeID)))
    case CSI(driver, handle, fsType, attributes) =>
      if driver != PdCsiDriver then Err(UnsupportedVolumeType)
      else
        match ParseHandle(handle)
        case None => Err(MalformedVolume)
        case Some(h) =>
          var h' := VolumeHandle(EffectiveProject(volumeProject, h), h.zone, volumeID);
          Ok(CSI(driver, FormatHandle(h'), fsType, attributes))
  }

  // ---------------------------------------------------------------------
  // The handle grammar

  /** A well-formed handle parses back into its three fields. */
  lemma ParseFormatHandle(h: VolumeHandle)
    requires ValidHandle(h)
    ensures ParseHandle(FormatHandle(h)) == Some(h)
  {
    SplitJoin(HandleFields(h), "/");
  }

  /** Whatever parses is a well-formed handle, and printing it gives back the
      very string that was parsed. */
  lemma FormatParseHandle(s: string)
    requires ParseHandle(s).Some?
    ensures ValidHandle(ParseHandle(s).value)
    ensures FormatHandle(ParseHandle(s).value) == s
  {
    var f := Split(s, "/");
    SplitPiecesAvoid(s, "/");
    JoinSplit(s, "/");
    assert f == HandleFields(ParseHandle(s).value);
  }

  /** Joining six fields with `/`, written out. */
  lemma JoinSixFields(a: string, b: string, c: string, d: string, e: string, g: string)
    ensures Join([a, b, c, d, e, g], "/") == a + "/" + b + "/" + c + "/" + d + "/" + e + "/" + g
  {
    JoinCons(e, [g], "/");
    assert [e] + [g] == [e, g];
    JoinCons(d, [e, g], "/");
    assert [d] + [e, g] == [d, e, g];
    JoinCons(c, [d, e, g], "/");
    assert [c] + [d, e, g] == [c, d, e, g];
    JoinCons(b, [c, d, e, g], "/");
    assert [b] + [c, d, e, g] == [b, c, d, e, g];
    JoinCons(a, [b, c, d, e, g], "/");
    assert [a] + [b, c, d, e, g] == [a, b, c, d, e, g];
  }

  /** The handle printed out character for character. */
  lemma FormatHandleSpelled(h: VolumeHandle)
    ensures FormatHandle(h) == "projects/" + h.project + "/zones/" + h.zone + "/disks/" + h.disk
  {
    JoinSixFields("projects", h.project, "zones", h.zone, "disks", h.disk);
    assert "projects" + "/" == "projects/";
    assert "/" + "zones" + "/" == "/zones/";
    assert "/" + "disks" + "/" == "/disks/";
  }

  /** A string without any `/` (a bare disk name) is not a handle. */
  lemma BareNameIsNotHandle(s: string)
    requires '/' !in s
    ensures ParseHandle(s) == None
  {
    SplitWhole(s, "/");
  }

  // ---------------------------------------------------------------------
  // Reading

  /** "Not my volume" and "my volume, but broken" are told apart: the empty ID
      without error comes exactly from volumes the snapshotter does not own,
      and an error only from volumes it does own. */
  lemma GetVolumeIDNotOwn(pv: PersistentVolume)
    ensures GetVolumeID(pv) == Ok("") <==> !IsOwnVolume(pv)
    ensures GetVolumeID(pv).Err? ==> IsOwnVolume(pv)
  {
    if pv.CSI? && pv.driver == PdCsiDriver && ParseHandle(pv.volumeHandle).Some? {
      FormatParseHandle(pv.volumeHandle);
    }
  }

  /** A legacy volume reads as its disk name verbatim; without a name it is an
      error. */
  lemma GetVolumeIDLegacy(pdName: Option<string>)
    ensures pdName.Some? && pdName.value != "" ==> GetVolumeID(Legacy(pdName)) == Ok(pdName.value)
    ensures pdName == None || pdName == Some("") ==> GetVolumeID(Legacy(pdName)) == Err(MalformedVolume)
  {
  }

  /** A CSI volume of the persistent-disk driver reads as the disk segment of
      its handle. */
  lemma GetVolumeIDCSI(h: VolumeHandle, fsType: string, attributes: map<string, string>)
    requires ValidHandle(h)
    ensures GetVolumeID(CSI(PdCsiDriver, FormatHandle(h), fsType, attributes)) == Ok(h.disk)
  {
    ParseFormatHandle(h);
  }

  /** A persistent-disk CSI volume whose handle is a bare disk name is broken. */
  lemma GetVolumeIDBareHandle(handle: string, fsType: string, attributes: map<string, string>)
    requires '/' !in handle
    ensures GetVolumeID(CSI(PdCsiDriver, handle, fsType, attributes)) == Err(MalformedVolume)
  {
    BareNameIsNotHandle(handle);
  }

  /** Any other CSI driver's volume is not the snapshotter's, whatever its
      handle looks like. */
  lemma GetVolumeIDForeignDriver(driver: string, handle: string, fsType: string, attributes: map<string, string>)
    requires driver != PdCsiDriver
    ensures GetVolumeID(CSI(driver, handle, fsType, attributes)) == Ok("")
  {
  }

  /** A persistent-disk CSI volume reads without error exactly when its handle
      is the printed form of a well-formed handle; any other shape (another
      keyword, a missing or extra segment, an empty field) is an error. */
  lemma GetVolumeIDCSIIff(handle: string, fsType: string, attributes: map<string, string>)
    ensures GetVolumeID(CSI(PdCsiDriver, handle, fsType, attributes)).Ok?
        <==> exists h :: ValidHandle(h) && FormatHandle(h) == handle
    ensures GetVolumeID(CSI(PdCsiDriver, handle, fsType, attributes)).Err?
        ==> GetVolumeID(CSI(PdCsiDriver, handle, fsType, attributes)) == Err(MalformedVolume)
  {
    if h :| ValidHandle(h) && FormatHandle(h) == handle {
      ParseFormatHandle(h);
    }
    if ParseHandle(handle).Some? {
      FormatParseHandle(handle);
    }
  }

  // ---------------------------------------------------------------------
  // Writing

  /** Writing a legacy volume's ID and reading it back gives the new ID. */
  lemma SetThenGetLegacy(pdName: Option<string>, volumeProject: string, volumeID: string)
    requires volumeID != ""
    ensures SetVolumeID(Legacy(pdName), volumeProject, volumeID).Ok?
    ensures GetVolumeID(SetVolumeID(Legacy(pdName), volumeProject, volumeID).value) == Ok(volumeID)
  {
  }

  /** A persistent-disk CSI handle is rebuilt around the new disk name: the
      zone is kept and the project becomes the configured volume project, or
      stays the handle's own when none is configured. */
  lemma SetVolumeIDCSI(h: VolumeHandle, fsType: string, attributes: map<string, string>,
                       volumeProject: string, volumeID: string)
    requires ValidHandle(h)
    ensures volumeProject != "" ==>
              (SetVolumeID(CSI(PdCsiDriver, FormatHandle(h), fsType, attributes), volumeProject, volumeID)
               == Ok(CSI(PdCsiDriver, FormatHandle(VolumeHandle(volumeProject, h.zone, volumeID)),
                         fsType, attributes)))
    ensures volumeProject == "" ==>
              (SetVolumeID(CSI(PdCsiDriver, FormatHandle(h), fsType, attributes), volumeProject, volumeID)
               == Ok(CSI(PdCsiDriver, FormatHandle(VolumeHandle(h.project, h.zone, volumeID)),
                         fsType, attributes)))
  {
    ParseFormatHandle(h);
  }

  /** Writing a CSI volume's ID and reading it back gives the new ID; the new
      handle names the original zone and the effective project. */
  lemma SetThenGetCSI(pv: PersistentVolume, volumeProject: string, volumeID: string)
    requires pv.CSI? && pv.driver == PdCsiDriver && ParseHandle(pv.volumeHandle).Some?
    requires ValidSegment(volumeID) && '/' !in volumeProject
    ensures SetVolumeID(pv, volumeProject, volumeID).Ok?
    ensures GetVolumeID(SetVolumeID(pv, volumeProject, volumeID).value) == Ok(volumeID)
    ensures ParseHandle(SetVolumeID(pv, volumeProject, volumeID).value.volumeHandle)
         == Some(VolumeHandle(EffectiveProject(volumeProject, ParseHandle(pv.volumeHandle).value),
                              ParseHandle(pv.volumeHandle).value.zone, volumeID))
  {
    var h := ParseHandle(pv.volumeHandle).value;
    FormatParseHandle(pv.volumeHandle);
    ParseFormatHandle(VolumeHandle(EffectiveProject(volumeProject, h), h.zone, volumeID));
  }
}
