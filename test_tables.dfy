/** The cases of the snapshotter's table-driven tests, stated as lemmas about
    the model. */
module TestTables {
  import opened Wrappers
  import opened Strings
  import opened VolumeIdentity
  import opened Zones
  import opened Tags
  import opened CrossProject

  const OldDisk := "pvc-a970184f-6cc1-4769-85ad-61dcaf8bf51d"
  const RestoredDisk := "restore-fd9729b5-868b-4544-9568-1c5d9121dabc"
  const OldVolumeHandle := VolumeHandle("velero-gcp", "us-central1-f", OldDisk)
  /** `projects/velero-gcp/zones/us-central1-f/disks/pvc-a970184f-6cc1-4769-85ad-61dcaf8bf51d` */
  const OldHandle := FormatHandle(OldVolumeHandle)
  const UnknownDriver := "xxx.csi.storage.gke.io"

  lemma OldDiskValid()
    ensures ValidSegment(OldDisk)
  {
    forall i | 0 <= i < |OldDisk| ensures OldDisk[i] != '/' { }
  }

  lemma OldVolumeHandleValid()
    ensures ValidHandle(OldVolumeHandle)
  {
    OldDiskValid();
    assert ValidSegment("velero-gcp") && ValidSegment("us-central1-f");
  }

  // The tests' literal strings, assembled one concatenation at a time.

  lemma HandlePrefixSpelledStep1() ensures "projects/" + "velero-gcp" == "projects/velero-gcp" { }
  lemma HandlePrefixSpelledStep2() ensures "projects/velero-gcp" + "/zones/" == "projects/velero-gcp/zones/" { }
  lemma HandlePrefixSpelledStep3() ensures "projects/velero-gcp/zones/" + "us-central1-f" == "projects/velero-gcp/zones/us-central1-f" { }
  lemma HandlePrefixSpelledStep4() ensures "projects/velero-gcp/zones/us-central1-f" + "/disks/" == "projects/velero-gcp/zones/us-central1-f/disks/" { }

  /** The handle prefix of project `velero-gcp`. */
  lemma HandlePrefixSpelled()
    ensures "projects/" + "velero-gcp" + "/zones/" + "us-central1-f" + "/disks/"
         == "projects/velero-gcp/zones/us-central1-f/disks/"
  {
    HandlePrefixSpelledStep1(); HandlePrefixSpelledStep2(); HandlePrefixSpelledStep3(); HandlePrefixSpelledStep4();
  }

  lemma MovedHandlePrefixSpelledStep1() ensures "projects/" + "velero-gcp-2" == "projects/velero-gcp-2" { }
  lemma MovedHandlePrefixSpelledStep2() ensures "projects/velero-gcp-2" + "/zones/" == "projects/velero-gcp-2/zones/" { }
  lemma MovedHandlePrefixSpelledStep3() ensures "projects/velero-gcp-2/zones/" + "us-central1-f" == "projects/velero-gcp-2/zones/us-central1-f" { }
  lemma MovedHandlePrefixSpelledStep4() ensures "projects/velero-gcp-2/zones/us-central1-f" + "/disks/" == "projects/velero-gcp-2/zones/us-central1-f/disks/" { }

  /** The handle prefix of project `velero-gcp-2`. */
  lemma MovedHandlePrefixSpelled()
    ensures "projects/" + "velero-gcp-2" + "/zones/" + "us-central1-f" + "/disks/"
         == "projects/velero-gcp-2/zones/us-central1-f/disks/"
  {
    MovedHandlePrefixSpelledStep1(); MovedHandlePrefixSpelledStep2(); MovedHandlePrefixSpelledStep3(); MovedHandlePrefixSpelledStep4();
  }

  /** The handle spelled as the tests write it. */
  lemma OldHandleSpelled()
    ensures OldHandle == "projects/velero-gcp/zones/us-central1-f/disks/" + OldDisk
  {
    FormatHandleSpelled(OldVolumeHandle);
    HandlePrefixSpelled();
  }

  lemma OldHandleParses()
    ensures ParseHandle(OldHandle) == Some(OldVolumeHandle)
  {
    OldVolumeHandleValid();
    ParseFormatHandle(OldVolumeHandle);
  }

  /** The bare disk name used as an invalid handle does not parse. */
  lemma OldDiskIsNotHandle()
    ensures ParseHandle(OldDisk) == None
  {
    OldDiskValid();
    BareNameIsNotHandle(OldDisk);
  }

  /** TestGetVolumeID: no volume source, a legacy source without a name, and a
      legacy source named "abc123". */
  lemma GetVolumeIDTable()
    ensures GetVolumeID(Neither) == Ok("")
    ensures GetVolumeID(Legacy(None)).Err?
    ensures GetVolumeID(Legacy(Some("abc123"))) == Ok("abc123")
  {
  }

  /** TestGetVolumeIDForCSI, "gke csi driver". */
  lemma GetVolumeIDForCSIGke()
    ensures GetVolumeID(CSI(PdCsiDriver, OldHandle, "ext4",
                            map["storage.kubernetes.io/csiProvisionerIdentity" := "1637243273131-8081-pd.csi.storage.gke.io"]))
         == Ok(OldDisk)
  {
    OldHandleParses();
  }

  /** TestGetVolumeIDForCSI, "gke csi driver with invalid handle name". */
  lemma GetVolumeIDForCSIInvalidHandle()
    ensures GetVolumeID(CSI(PdCsiDriver, OldDisk, "ext4", map[])) == Err(MalformedVolume)
  {
    OldDiskIsNotHandle();
  }

  /** TestGetVolumeIDForCSI, "unknown driver". */
  lemma GetVolumeIDForCSIUnknownDriver()
    ensures GetVolumeID(CSI(UnknownDriver, OldDisk, "ext4", map[])) == Ok("")
  {
  }

  /** TestSetVolumeID: no volume source fails; a legacy source takes the name. */
  lemma SetVolumeIDTable()
    ensures SetVolumeID(Neither, "", "abc123").Err?
    ensures SetVolumeID(Legacy(None), "", "123abc") == Ok(Legacy(Some("123abc")))
  {
  }

  /** TestSetVolumeIDForCSI, "set ID to CSI with GKE pd CSI driver". */
  lemma SetVolumeIDForCSIGke()
    ensures SetVolumeID(CSI(PdCsiDriver, OldHandle, "ext4", map[]), "velero-gcp", RestoredDisk)
         == Ok(CSI(PdCsiDriver, FormatHandle(VolumeHandle("velero-gcp", "us-central1-f", RestoredDisk)), "ext4", map[]))
    ensures FormatHandle(VolumeHandle("velero-gcp", "us-central1-f", RestoredDisk))
         == "projects/velero-gcp/zones/us-central1-f/disks/" + RestoredDisk
  {
    OldHandleParses();
    FormatHandleSpelled(VolumeHandle("velero-gcp", "us-central1-f", RestoredDisk));
    HandlePrefixSpelled();
  }

  /** TestSetVolumeIDForCSI, "... but the volumeHandle is invalid". */
  lemma SetVolumeIDForCSIInvalidHandle()
    ensures SetVolumeID(CSI(PdCsiDriver, OldDisk, "ext4", map[]), "velero-gcp", RestoredDisk).Err?
  {
    OldDiskIsNotHandle();
  }

  /** TestSetVolumeIDForCSI, "set ID to CSI with unknown driver". */
  lemma SetVolumeIDForCSIUnknownDriver()
    ensures SetVolumeID(CSI(UnknownDriver, OldHandle, "ext4", map[]), "velero-gcp", RestoredDisk).Err?
  {
  }

  /** TestSetVolumeIDForCSI, "volume project is different from original handle
      project": the handle moves to the volume project. */
  lemma SetVolumeIDForCSIOtherProject()
    ensures SetVolumeID(CSI(PdCsiDriver, OldHandle, "ext4", map[]), "velero-gcp-2", RestoredDisk)
         == Ok(CSI(PdCsiDriver, FormatHandle(VolumeHandle("velero-gcp-2", "us-central1-f", RestoredDisk)), "ext4", map[]))
    ensures FormatHandle(VolumeHandle("velero-gcp-2", "us-central1-f", RestoredDisk))
         == "projects/velero-gcp-2/zones/us-central1-f/disks/" + RestoredDisk
  {
    OldHandleParses();
    FormatHandleSpelled(VolumeHandle("velero-gcp-2", "us-central1-f", RestoredDisk));
    MovedHandlePrefixSpelled();
  }

  // TestGetSnapshotTags, one lemma per case, for any JSON codec that decodes
  // the case's description as JSON does.

  /** "degenerate case (no tags)". */
  lemma SnapshotTagsNoTags(decode: string -> Option<TagMap>, encode: TagMap -> string)
    requires JsonCodec(decode, encode)
    ensures GetSnapshotTags(map[], "", decode, encode) == ""
  {
    NoTagsIsEmptyString("", decode, encode);
  }

  /** "velero tags only get applied". */
  lemma SnapshotTagsVeleroOnly(decode: string -> Option<TagMap>, encode: TagMap -> string)
    requires JsonCodec(decode, encode)
    ensures decode(GetSnapshotTags(map["velero-key1" := "velero-val1", "velero-key2" := "velero-val2"],
                                   "", decode, encode))
         == Some(map["velero-key1" := "velero-val1", "velero-key2" := "velero-val2"])
  {
    var v := map["velero-key1" := "velero-val1", "velero-key2" := "velero-val2"];
    InvalidDescriptionKeepsVeleroTags(v, "", decode);
    GetSnapshotTagsDecodes(v, "", decode, encode);
  }

  /** "disk tags only get applied". */
  lemma SnapshotTagsDiskOnly(decode: string -> Option<TagMap>, encode: TagMap -> string, description: string)
    requires JsonCodec(decode, encode)
    requires description == "{\"gcp-key1\":\"gcp-val1\",\"gcp-key2\":\"gcp-val2\"}"
    requires decode(description) == Some(map["gcp-key1" := "gcp-val1", "gcp-key2" := "gcp-val2"])
    ensures decode(GetSnapshotTags(map[], description, decode, encode))
         == Some(map["gcp-key1" := "gcp-val1", "gcp-key2" := "gcp-val2"])
  {
    NoVeleroTagsMerge(map["gcp-key1" := "gcp-val1", "gcp-key2" := "gcp-val2"]);
    GetSnapshotTagsDecodes(map[], description, decode, encode);
  }

  lemma NoVeleroTagsMerge(diskTags: TagMap)
    ensures diskTags + map[] == diskTags
  {
  }

  lemma DisjointMerge()
    ensures map["gcp-key" := "gcp-val"] + map["velero-key" := "velero-val"]
         == map["velero-key" := "velero-val", "gcp-key" := "gcp-val"]
  {
  }

  /** "non-overlapping velero and disk tags both get applied". */
  lemma SnapshotTagsDisjoint(decode: string -> Option<TagMap>, encode: TagMap -> string, description: string)
    requires JsonCodec(decode, encode)
    requires description == "{\"gcp-key\":\"gcp-val\"}"
    requires decode(description) == Some(map["gcp-key" := "gcp-val"])
    ensures decode(GetSnapshotTags(map["velero-key" := "velero-val"], description, decode, encode))
         == Some(map["velero-key" := "velero-val", "gcp-key" := "gcp-val"])
  {
    DisjointMerge();
    GetSnapshotTagsDecodes(map["velero-key" := "velero-val"], description, decode, encode);
  }

  lemma OverlapMerge()
    ensures map["gcp-key" := "gcp-val", "overlapping-key" := "gcp-val"]
          + map["velero-key" := "velero-val", "overlapping-key" := "velero-val"]
         == map["velero-key" := "velero-val", "gcp-key" := "gcp-val", "overlapping-key" := "velero-val"]
  {
  }

  /** "when tags overlap, velero tags take precedence". */
  lemma SnapshotTagsOverlap(decode: string -> Option<TagMap>, encode: TagMap -> string, description: string)
    requires JsonCodec(decode, encode)
    requires description == "{\"gcp-key\":\"gcp-val\",\"overlapping-key\":\"gcp-val\"}"
    requires decode(description) == Some(map["gcp-key" := "gcp-val", "overlapping-key" := "gcp-val"])
    ensures decode(GetSnapshotTags(map["velero-key" := "velero-val", "overlapping-key" := "velero-val"],
                                   description, decode, encode))
         == Some(map["velero-key" := "velero-val", "gcp-key" := "gcp-val", "overlapping-key" := "velero-val"])
  {
    var v := map["velero-key" := "velero-val", "overlapping-key" := "velero-val"];
    OverlapMerge();
    GetSnapshotTagsDecodes(v, description, decode, encode);
  }

  /** "if disk description is invalid JSON, apply just velero tags". */
  lemma SnapshotTagsInvalidJson(decode: string -> Option<TagMap>, encode: TagMap -> string, description: string)
    requires JsonCodec(decode, encode)
    requires description == "THIS IS INVALID JSON" && decode(description) == None
    ensures decode(GetSnapshotTags(map["velero-key" := "velero-val"], description, decode, encode))
         == Some(map["velero-key" := "velero-val"])
  {
    var v := map["velero-key" := "velero-val"];
    GetSnapshotTagsDecodes(v, description, decode, encode);
    InvalidDescriptionKeepsVeleroTags(v, description, decode);
  }

  // The zone tokens of the table, written as their zones joined by "__".
  /** `us-central1-a__us-central1-b` */
  const TwoZones := Join(["us-central1-a", "us-central1-b"], ZoneSeparator)
  /** `us-central1-a__us-central1-b__us-central1-f__us-central1-e` */
  const FourZones := Join(["us-central1-a", "us-central1-b", "us-central1-f", "us-central1-e"], ZoneSeparator)
  const BadZone := "us^central1^a"
  /** `us^central1^a__us^central1^b` */
  const BadMultiZone := Join([BadZone, "us^central1^b"], ZoneSeparator)

  const CentralRegion := "us-central1"

  // The zone tokens' literal spellings, one concatenation at a time.

  lemma ZoneStep1() ensures "us-central1-a" + "__" == "us-central1-a__" { }
  lemma ZoneStep2() ensures "us-central1-a__" + "us-central1-b" == "us-central1-a__us-central1-b" { }
  lemma ZoneStep3() ensures "us-central1-f" + "__" == "us-central1-f__" { }
  lemma ZoneStep4() ensures "us-central1-f__" + "us-central1-e" == "us-central1-f__us-central1-e" { }
  lemma ZoneStep5() ensures "us-central1-b" + "__" == "us-central1-b__" { }
  lemma ZoneStep6() ensures "us-central1-b__" + "us-central1-f__" == "us-central1-b__us-central1-f__" { }
  lemma ZoneStep7()
    ensures "us-central1-b__us-central1-f__" + "us-central1-e" == "us-central1-b__us-central1-f__us-central1-e"
  {
  }
  lemma ZoneStep8() ensures "us-central1-a__" + "us-central1-b__" == "us-central1-a__us-central1-b__" { }
  lemma ZoneStep9()
    ensures "us-central1-a__us-central1-b__" + "us-central1-f__" == "us-central1-a__us-central1-b__us-central1-f__"
  {
  }
  lemma ZoneStep10()
    ensures "us-central1-a__us-central1-b__us-central1-f__" + "us-central1-e"
         == "us-central1-a__us-central1-b__us-central1-f__us-central1-e"
  {
  }
  lemma ZoneStep11() ensures "us^central1^a" + "__" == "us^central1^a__" { }
  lemma ZoneStep12() ensures "us^central1^a__" + "us^central1^b" == "us^central1^a__us^central1^b" { }

  /** The two-zone token spelled as the tests write it. */
  lemma TwoZonesSpelled()
    ensures TwoZones == "us-central1-a__us-central1-b"
  {
    JoinCons("us-central1-a", ["us-central1-b"], ZoneSeparator);
    assert ["us-central1-a"] + ["us-central1-b"] == ["us-central1-a", "us-central1-b"];
    ZoneStep1(); ZoneStep2();
  }

  /** The four-zone token spelled as the tests write it. */
  lemma FourZonesSpelled()
    ensures FourZones == "us-central1-a__us-central1-b__us-central1-f__us-central1-e"
  {
    JoinCons("us-central1-f", ["us-central1-e"], ZoneSeparator);
    assert ["us-central1-f"] + ["us-central1-e"] == ["us-central1-f", "us-central1-e"];
    JoinCons("us-central1-b", ["us-central1-f", "us-central1-e"], ZoneSeparator);
    assert ["us-central1-b"] + ["us-central1-f", "us-central1-e"]
        == ["us-central1-b", "us-central1-f", "us-central1-e"];
    JoinCons("us-central1-a", ["us-central1-b", "us-central1-f", "us-central1-e"], ZoneSeparator);
    assert ["us-central1-a"] + ["us-central1-b", "us-central1-f", "us-central1-e"]
        == ["us-central1-a", "us-central1-b", "us-central1-f", "us-central1-e"];
    ZoneStep3(); ZoneStep4(); ZoneStep5();
    ConcatAssoc("us-central1-b__", "us-central1-f__", "us-central1-e");
    ZoneStep6(); ZoneStep7();
    ZoneStep1();
    ConcatAssoc("us-central1-a__", "us-central1-b__us-central1-f__", "us-central1-e");
    ConcatAssoc("us-central1-a__", "us-central1-b__", "us-central1-f__");
    ZoneStep8(); ZoneStep9(); ZoneStep10();
  }

  /** The invalid multi-zone token spelled as the tests write it. */
  lemma BadMultiZoneSpelled()
    ensures BadMultiZone == "us^central1^a__us^central1^b"
  {
    JoinCons(BadZone, ["us^central1^b"], ZoneSeparator);
    assert [BadZone] + ["us^central1^b"] == [BadZone, "us^central1^b"];
    ZoneStep11(); ZoneStep12();
  }

  lemma CentralRegionValid()
    ensures ValidRegion(CentralRegion)
  {
    forall i | 0 <= i < |CentralRegion| ensures IsRegionChar(CentralRegion[i]) { }
    forall i | 0 <= i < |CentralRegion| - 1
      ensures !(CentralRegion[i] == '-' && CentralRegion[i + 1] == '-') { }
  }

  // TestRegionHelpers, one lemma per case.

  /** "valid multizone(2) tag". */
  lemma RegionHelpersTwoZones()
    ensures IsMultiZone(TwoZones)
    ensures ParseRegion(TwoZones) == Ok("us-central1")
  {
    CentralRegionValid();
    assert CentralRegion + "-" + ['a'] == "us-central1-a" && CentralRegion + "-" + ['b'] == "us-central1-b";
    assert ZonesOf(CentralRegion, "ab") == ["us-central1-a", "us-central1-b"];
    ParseRegionOfZones(CentralRegion, "ab");
  }

  /** "valid multizone(4) tag". */
  lemma RegionHelpersFourZones()
    ensures IsMultiZone(FourZones)
    ensures ParseRegion(FourZones) == Ok("us-central1")
  {
    CentralRegionValid();
    assert CentralRegion + "-" + ['a'] == "us-central1-a" && CentralRegion + "-" + ['b'] == "us-central1-b";
    assert CentralRegion + "-" + ['f'] == "us-central1-f" && CentralRegion + "-" + ['e'] == "us-central1-e";
    assert ZonesOf(CentralRegion, "abfe") == ["us-central1-a", "us-central1-b", "us-central1-f", "us-central1-e"];
    ParseRegionOfZones(CentralRegion, "abfe");
  }

  /** "valid single zone tag". */
  lemma RegionHelpersSingleZone()
    ensures !IsMultiZone("us-central1-a")
    ensures ParseRegion("us-central1-a") == Ok("us-central1")
  {
    CentralRegionValid();
    assert CentralRegion + "-" + ['a'] == "us-central1-a";
    ParseRegionSingleZone(CentralRegion, 'a');
  }

  lemma BadZoneFacts()
    ensures ZoneRegion(BadZone) == None
    ensures '_' !in BadZone && '"' !in BadZone && '\\' !in BadZone
  {
  }

  lemma BadMultiZoneFacts()
    ensures Split(BadMultiZone, ZoneSeparator) == [BadZone, "us^central1^b"]
    ensures '"' !in BadMultiZone && '\\' !in BadMultiZone
  {
    BadZoneFacts();
    assert '_' !in "us^central1^b" && '"' !in "us^central1^b" && '\\' !in "us^central1^b";
    SplitJoin([BadZone, "us^central1^b"], ZoneSeparator);
    JoinCons(BadZone, ["us^central1^b"], ZoneSeparator);
  }

  /** "invalid single zone tag". */
  lemma RegionHelpersBadZone()
    ensures !IsMultiZone(BadZone)
    ensures ParseRegion(BadZone)
         == Err(RegionParseError(RegionErrorPrefix + "\"" + BadZone + "\""))
  {
    BadZoneFacts();
    SplitWhole(BadZone, ZoneSeparator);
    IsMultiZoneSplits(BadZone);
    RegionErrorMessagePlain(BadZone);
  }

  /** "invalid multizone tag". */
  lemma RegionHelpersBadMultiZone()
    ensures IsMultiZone(BadMultiZone)
    ensures ParseRegion(BadMultiZone)
         == Err(RegionParseError(RegionErrorPrefix + "\"" + BadMultiZone + "\""))
  {
    BadZoneFacts();
    BadMultiZoneFacts();
    IsMultiZoneSplits(BadMultiZone);
    RegionErrorMessagePlain(BadMultiZone);
  }

  /** TestIsVolumeCreatedCrossProjects. */
  lemma IsVolumeCreatedCrossProjectsTable()
    ensures !IsVolumeCreatedCrossProjects("", "InvalidHandle")
    ensures IsVolumeCreatedCrossProjects("velero-gcp-2", OldHandle)
    ensures !IsVolumeCreatedCrossProjects("velero-gcp", OldHandle)
  {
    BareNameNotCrossProjects("", "InvalidHandle");
    OldHandleParses();
  }
}
