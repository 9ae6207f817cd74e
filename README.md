# GCP volume snapshotter: volume identity, regions, tags, cross-project check

This project models four small pieces of the Velero plugin for Google Cloud.
Each of them turns strings and maps into other strings and maps, so each is
modelled as a pure Dafny function. The configured volume project is passed in
as a read-only parameter.

- **Volume identity codec** (`volume_identity.dfy`, module `VolumeIdentity`).
  - A persistent volume is modelled as one of three variants: a legacy
    `gcePersistentDisk` source with an optional `pdName`, a CSI source, or
    neither.
  - `GetVolumeID` reads the snapshotter's volume ID. For a legacy source that
    is the disk name. For the GKE persistent-disk CSI driver
    `pd.csi.storage.gke.io` it is the disk segment of the handle
    `projects/<project>/zones/<zone>/disks/<disk>`.
  - A volume the snapshotter does not own reads as `""` without error. An
    owned volume that is broken is an error.
  - `SetVolumeID` writes a new ID. A CSI handle is rebuilt with its original
    zone and the effective project.
- **Zone/region parser** (`zones.dfy`, module `Zones`).
  - A zone token names one zone, or several zones joined by `__`.
  - Each zone has the form `<region>-<letter>`, where the region is words of
    lower-case letters and digits joined by single dashes.
  - `IsMultiZone` is the test for `__`.
  - `ParseRegion` returns the region. Its error message is
    `failed to parse region from zone: ` followed by the whole token, quoted
    as Go's `%q` quotes it.
- **Tag reconciler** (`tags.dfy`, module `Tags`).
  - The disk description's JSON tags are overlaid with the operator's
    (velero's) tags, so the operator's value wins on a shared key.
  - A description that does not decode adds no tags.
  - When there are no tags at all, the result is `""`.
- **Cross-project detector** (`cross_project.dfy`, module `CrossProject`).
  - A CSI volume handle that does not parse is not cross-project.
  - Otherwise the volume is cross-project exactly when the handle's project
    differs from the configured volume project.

Supporting modules:

- `strings.dfy` (module `Strings`) models Go's `strings.Split`,
  `strings.Join` and `strings.Contains`, and the `%q` quote, with the laws
  that connect each to its inverse.
- `wrappers.dfy` (module `Wrappers`) holds the `Option` and `Result` types and
  the error kinds. A Go `(value, err)` pair with a non-nil `err` is modelled
  as `Err(error)`.
- `test_tables.dfy` (module `TestTables`) states every case of the
  table-driven tests as a lemma about the model.

The implementation file `volume_snapshotter.go` is not part of this model.
The behaviour modelled is the one that `volume_snapshotter_test.go` fixes,
plus the plugin's documented fallback for an unset volume project.

## Model

| member | source | states |
|---|---|---|
| VolumeIdentity.GetVolumeID | velero-plugin-for-gcp/volume_snapshotter_test.go:47-54 | reading an ID fails only with MalformedVolume: a missing disk name or an ill-formed handle |
| VolumeIdentity.GetVolumeIDNotOwn | velero-plugin-for-gcp/volume_snapshotter_test.go:42-45 | `""` without error comes exactly from volumes the snapshotter does not own (no source, or a foreign CSI driver); errors come only from volumes it owns |
| VolumeIdentity.GetVolumeIDLegacy | velero-plugin-for-gcp/volume_snapshotter_test.go:47-60 | a legacy source reads as its pdName verbatim; without a name it reads as an error |
| VolumeIdentity.GetVolumeIDCSI | velero-plugin-for-gcp/volume_snapshotter_test.go:74-86 | a persistent-disk CSI volume with handle `projects/P/zones/Z/disks/D` reads as `D` |
| VolumeIdentity.GetVolumeIDCSIIff | velero-plugin-for-gcp/volume_snapshotter_test.go:74-96 | a persistent-disk CSI volume reads without error exactly when its handle is the printed form of a well-formed handle; every other shape (another keyword, a missing or extra segment, an empty field) is MalformedVolume |
| VolumeIdentity.GetVolumeIDBareHandle | velero-plugin-for-gcp/volume_snapshotter_test.go:87-96 | a persistent-disk CSI volume whose handle is a bare disk name (no `/`) reads as an error |
| VolumeIdentity.GetVolumeIDForeignDriver | velero-plugin-for-gcp/volume_snapshotter_test.go:97-106 | a CSI volume of any other driver reads as `""` without error, whatever its handle |
| VolumeIdentity.ParseFormatHandle | velero-plugin-for-gcp/volume_snapshotter_test.go:82-84 | a handle printed from three non-empty, slash-free fields parses back into those fields |
| VolumeIdentity.FormatParseHandle | velero-plugin-for-gcp/volume_snapshotter_test.go:171-176 | every string that parses as a handle has well-formed fields, and printing it gives back the very string parsed |
| VolumeIdentity.FormatHandleSpelled | velero-plugin-for-gcp/volume_snapshotter_test.go:171-176 | a printed handle is `projects/` + project + `/zones/` + zone + `/disks/` + disk |
| VolumeIdentity.BareNameIsNotHandle | velero-plugin-for-gcp/volume_snapshotter_test.go:88-92 | a string without `/` is not a handle |
| VolumeIdentity.SetVolumeID | velero-plugin-for-gcp/volume_snapshotter_test.go:139-154 | writing succeeds exactly for a legacy source or a persistent-disk CSI volume with a parseable handle; the error is MalformedVolume for an owned volume and UnsupportedVolumeType otherwise; a legacy result carries the new name; a CSI result keeps driver, fsType and attributes |
| VolumeIdentity.SetThenGetLegacy | velero-plugin-for-gcp/volume_snapshotter_test.go:143-154 | writing a non-empty ID into a legacy source succeeds and reading it back gives that ID |
| VolumeIdentity.SetVolumeIDCSI | velero-plugin-for-gcp/volume_snapshotter_test.go:200-211 | a persistent-disk CSI volume is rewritten to `projects/<volume project>/zones/<original zone>/disks/<new ID>` when a volume project is configured, and to `projects/<original project>/zones/<original zone>/disks/<new ID>` when none is; every other field is kept |
| VolumeIdentity.SetThenGetCSI | velero-plugin-for-gcp/volume_snapshotter_test.go:228-237 | writing a well-formed ID into a persistent-disk CSI volume succeeds; reading back gives that ID; the new handle parses to the effective project, the original zone and the new ID |
| Zones.ParseRegion | velero-plugin-for-gcp/volume_snapshotter_test.go:347-358 | every failure is a RegionParseError whose message is the fixed prefix followed by the whole token quoted |
| Zones.ZoneRegionOf | velero-plugin-for-gcp/volume_snapshotter_test.go:339-345 | the zone `<region>-<letter>` has region `<region>` |
| Zones.ZoneRegionShape | velero-plugin-for-gcp/volume_snapshotter_test.go:340-344 | conversely, a zone with a region is a well-formed region, a dash and a letter |
| Zones.ZoneHasNoUnderscore | velero-plugin-for-gcp/volume_snapshotter_test.go:325-331 | a well-formed zone holds no `_`, so the `__` split never cuts one apart |
| Zones.IsMultiZoneSplits | velero-plugin-for-gcp/volume_snapshotter_test.go:364 | a token is multi-zone exactly when it splits on `__` into more than one zone |
| Zones.ParseRegionOfZones | velero-plugin-for-gcp/volume_snapshotter_test.go:325-338 | one or more zones of one region, joined by `__`, parse to that region; the token is multi-zone exactly when it has more than one zone |
| Zones.ParseRegionSingleZone | velero-plugin-for-gcp/volume_snapshotter_test.go:339-345 | a single well-formed zone is not multi-zone and parses to its region |
| Zones.ParseRegionOk | velero-plugin-for-gcp/volume_snapshotter_test.go:365-371 | a successful parse means every zone of the token is well formed, and the result is a well-formed region belonging to one of them |
| Zones.ParseRegionError | velero-plugin-for-gcp/volume_snapshotter_test.go:353-358 | an ill-formed zone anywhere in the token makes the parse fail; the message quotes the whole token, which can be read back from it |
| Zones.RegionErrorMessagePlain | velero-plugin-for-gcp/volume_snapshotter_test.go:346-352 | for a token without `"` or `\`, the message is the prefix and the token in double quotes |
| Tags.GetSnapshotTagsDecodes | velero-plugin-for-gcp/volume_snapshotter_test.go:298-312 | the result is `""` exactly when the merged tag set is empty; otherwise it decodes to the merged tag set |
| Tags.SnapshotTagMapOverlay | velero-plugin-for-gcp/volume_snapshotter_test.go:277-285 | the merged keys are the union of both sources; a shared key keeps the operator's value; any other key keeps its own value |
| Tags.InvalidDescriptionKeepsVeleroTags | velero-plugin-for-gcp/volume_snapshotter_test.go:286-291 | a description that does not decode leaves exactly the operator's tags |
| Tags.NoTagsIsEmptyString | velero-plugin-for-gcp/volume_snapshotter_test.go:250-255 | no operator tags and an empty or undecodable description give `""` |
| CrossProject.CrossProjectsIff | velero-plugin-for-gcp/volume_snapshotter_test.go:449-474 | a handle is cross-project exactly when it is the printed form of a well-formed handle whose project differs from the volume project |
| CrossProject.CrossProjectsOfHandle | velero-plugin-for-gcp/volume_snapshotter_test.go:457-474 | for a well-formed handle the answer is whether its project differs from the volume project |
| CrossProject.BareNameNotCrossProjects | velero-plugin-for-gcp/volume_snapshotter_test.go:449-456 | a handle without `/` is never cross-project |
| CrossProject.SetVolumeIDNotCrossProjects | velero-plugin-for-gcp/volume_snapshotter_test.go:200-211 | once a handle is rewritten for a configured volume project, it is no longer cross-project |
| TestTables.OldHandleSpelled | velero-plugin-for-gcp/volume_snapshotter_test.go:82 | the handle used by the tests is `projects/velero-gcp/zones/us-central1-f/disks/` followed by the old disk name |
| TestTables.TwoZonesSpelled | velero-plugin-for-gcp/volume_snapshotter_test.go:327 | the two-zone token is `us-central1-a__us-central1-b` |
| TestTables.FourZonesSpelled | velero-plugin-for-gcp/volume_snapshotter_test.go:334 | the four-zone token is `us-central1-a__us-central1-b__us-central1-f__us-central1-e` |
| TestTables.BadMultiZoneSpelled | velero-plugin-for-gcp/volume_snapshotter_test.go:355 | the invalid multi-zone token is `us^central1^a__us^central1^b` |
| TestTables.GetVolumeIDTable | velero-plugin-for-gcp/volume_snapshotter_test.go:35-61 | no source gives `""`; a legacy source without a name is an error; `abc123` reads as `abc123` |
| TestTables.GetVolumeIDForCSIGke | velero-plugin-for-gcp/volume_snapshotter_test.go:74-86 | the test's GKE handle reads as `pvc-a970184f-6cc1-4769-85ad-61dcaf8bf51d` |
| TestTables.GetVolumeIDForCSIInvalidHandle | velero-plugin-for-gcp/volume_snapshotter_test.go:87-96 | the bare disk name as a handle is an error |
| TestTables.GetVolumeIDForCSIUnknownDriver | velero-plugin-for-gcp/volume_snapshotter_test.go:97-106 | the `xxx.csi.storage.gke.io` driver reads as `""` without error |
| TestTables.SetVolumeIDTable | velero-plugin-for-gcp/volume_snapshotter_test.go:130-155 | no source is an error; a legacy source takes the name `123abc` |
| TestTables.SetVolumeIDForCSIGke | velero-plugin-for-gcp/volume_snapshotter_test.go:166-177 | the handle becomes `projects/velero-gcp/zones/us-central1-f/disks/restore-fd9729b5-868b-4544-9568-1c5d9121dabc`, spelled out as the test writes it |
| TestTables.SetVolumeIDForCSIInvalidHandle | velero-plugin-for-gcp/volume_snapshotter_test.go:178-188 | a bare disk name as the existing handle is an error |
| TestTables.SetVolumeIDForCSIUnknownDriver | velero-plugin-for-gcp/volume_snapshotter_test.go:189-199 | an unknown driver is an error |
| TestTables.SetVolumeIDForCSIOtherProject | velero-plugin-for-gcp/volume_snapshotter_test.go:200-211 | with volume project `velero-gcp-2` the handle becomes `projects/velero-gcp-2/zones/us-central1-f/disks/restore-fd9729b5-868b-4544-9568-1c5d9121dabc`, spelled out as the test writes it |
| TestTables.SnapshotTagsNoTags | velero-plugin-for-gcp/volume_snapshotter_test.go:250-255 | no tags give `""` |
| TestTables.SnapshotTagsVeleroOnly | velero-plugin-for-gcp/volume_snapshotter_test.go:256-264 | only operator tags: the result decodes to them |
| TestTables.SnapshotTagsDiskOnly | velero-plugin-for-gcp/volume_snapshotter_test.go:265-270 | only disk tags: the result decodes to them |
| TestTables.SnapshotTagsDisjoint | velero-plugin-for-gcp/volume_snapshotter_test.go:271-276 | disjoint tags: the result decodes to both sets |
| TestTables.SnapshotTagsOverlap | velero-plugin-for-gcp/volume_snapshotter_test.go:277-285 | overlapping tags: `overlapping-key` keeps the operator's `velero-val` |
| TestTables.SnapshotTagsInvalidJson | velero-plugin-for-gcp/volume_snapshotter_test.go:286-291 | an invalid JSON description leaves the operator tags alone |
| TestTables.RegionHelpersTwoZones | velero-plugin-for-gcp/volume_snapshotter_test.go:325-331 | `us-central1-a__us-central1-b` is multi-zone in region `us-central1` |
| TestTables.RegionHelpersFourZones | velero-plugin-for-gcp/volume_snapshotter_test.go:332-338 | the four-zone token is multi-zone in region `us-central1` |
| TestTables.RegionHelpersSingleZone | velero-plugin-for-gcp/volume_snapshotter_test.go:339-345 | `us-central1-a` is a single zone in region `us-central1` |
| TestTables.RegionHelpersBadZone | velero-plugin-for-gcp/volume_snapshotter_test.go:346-352 | `us^central1^a` is a single zone and fails with the message quoting it |
| TestTables.RegionHelpersBadMultiZone | velero-plugin-for-gcp/volume_snapshotter_test.go:353-359 | `us^central1^a__us^central1^b` is multi-zone and fails with the message quoting the whole token |
| TestTables.IsVolumeCreatedCrossProjectsTable | velero-plugin-for-gcp/volume_snapshotter_test.go:442-481 | `InvalidHandle` is not cross-project; the test handle is cross-project for `velero-gcp-2` and not for `velero-gcp` |

## Left out

- Init (volume_snapshotter_test.go:376-440) is not modelled. It reads
  credential files and the `GOOGLE_APPLICATION_CREDENTIALS` environment
  variable, which is file and environment I/O. The volume project it
  configures is a parameter of the model.
- Logging is not modelled. A tag description that does not decode falls back
  to no tags without a message.
- JSON decoding and encoding are passed in as the parameters `decode` and
  `encode`. The tag lemmas ask only two things of them: `""` does not decode,
  and decoding an encoded map gives that map back. The literal text of the
  encoded JSON and its key order are not modelled. Neither is the difference
  between a nil and an empty Go map.
- The Kubernetes unstructured-object conversions are not modelled. The
  persistent volume is the typed variant `PersistentVolume`, holding only the
  fields the codec reads or writes. The in-place edits the tests make to one
  volume between calls become separate values.
- The snapshot and disk operations against the Google Cloud API are not
  modelled. Their implementation is not part of this model, and they are
  network I/O.
- VolumeIdentity.GetVolumeID: a legacy source whose `pdName` is present but
  empty reads as an error, the same as a missing name. Once converted to the
  typed volume, the two cannot be told apart.
- VolumeIdentity.SetVolumeID: the tests require only some error for a volume
  with no source or a foreign driver, and for a malformed handle. The model
  names the error kinds (UnsupportedVolumeType, MalformedVolume), but not
  their message texts.
- The fallback to the handle's own project when no volume project is
  configured is the plugin's documented behaviour. No test case leaves the
  volume project empty.
- Zones.ParseRegion: the model returns the first zone's region for a token
  whose zones all parse. No lemma says which region is returned when the
  zones disagree, because no test covers that case.
- Strings.Quote models Go's `%q` only for printable characters: it escapes
  `"` and `\`. The escapes Go writes for non-printable characters are left
  out.
