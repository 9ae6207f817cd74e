/** The tag reconciler: the tags put on a snapshot are the tags stored as JSON
    in the disk's description, overlaid with the operator's (velero's) tags.
    JSON decoding and encoding are outside the model; they are passed in as
    `decode` (None when the description is not a JSON object of strings) and
    `encode`. */
module Tags {
  import opened Wrappers

  type TagMap = map<string, string>

  /** What the lemmas ask of the JSON codec: the empty string is not JSON, and
      decoding an encoded object gives that object back. */
  ghost predicate JsonCodec(decode: string -> Option<TagMap>, encode: TagMap -> string) {
    decode("") == None && forall m: TagMap :: decode(encode(m)) == Some(m)
  }

  /** The disk tags overlaid with the operator tags. */
  function MergeTags(veleroTags: TagMap, diskTags: TagMap): (tags: TagMap) {
    diskTags + veleroTags
  }

  /** The merged tag set; a description that does not decode adds nothing. */
  function SnapshotTagMap(veleroTags: TagMap, diskDescription: string,
                          decode: string -> Option<TagMap>): (tags: TagMap)
  {
    MergeTags(veleroTags, decode(diskDescription).GetOr(map[]))
  }

  /** The snapshot's tags as a JSON object, or "" when there are none. */
  function GetSnapshotTags(veleroTags: TagMap, diskDescription: string,
                           decode: string -> Option<TagMap>, encode: TagMap -> string): (r: string)
  {
    var tags := SnapshotTagMap(veleroTags, diskDescription, decode);
    if |tags| == 0 then "" else encode(tags)
  }

  /** The result is "" exactly when there are no tags, and otherwise decodes to
      the merged tag set. */
  lemma GetSnapshotTagsDecodes(veleroTags: TagMap, diskDescription: string,
                               decode: string -> Option<TagMap>, encode: TagMap -> string)
    requires JsonCodec(decode, encode)
    ensures var r := GetSnapshotTags(veleroTags, diskDescription, decode, encode);
            var tags := SnapshotTagMap(veleroTags, diskDescription, decode);
            && (r == "" <==> tags == map[])
            && (r != "" ==> decode(r) == Some(tags))
  {
    var tags := SnapshotTagMap(veleroTags, diskDescription, decode);
    assert decode(encode(tags)) == Some(tags);
    if tags != map[] {
      assert |tags| != 0 by {
        var k :| k in tags;
      }
    }
  }

  /** A description that is not valid JSON leaves just the operator tags. */
  lemma InvalidDescriptionKeepsVeleroTags(veleroTags: TagMap, diskDescription: string,
                                          decode: string -> Option<TagMap>)
    requires decode(diskDescription) == None
    ensures SnapshotTagMap(veleroTags, diskDescription, decode) == veleroTags
  {
  }

  /** The merged keys are those of both sources; a shared key keeps the
      operator value and any other key keeps the disk value. */
  lemma SnapshotTagMapOverlay(veleroTags: TagMap, diskDescription: string, diskTags: TagMap,
                              decode: string -> Option<TagMap>)
    requires decode(diskDescription) == Some(diskTags)
    ensures var tags := SnapshotTagMap(veleroTags, diskDescription, decode);
            && tags.Keys == veleroTags.Keys + diskTags.Keys
            && (forall k | k in veleroTags :: tags[k] == veleroTags[k])
            && (forall k | k in diskTags && k !in veleroTags :: tags[k] == diskTags[k])
  {
  }

  /** No operator tags and an empty or undecodable description give "". */
  lemma NoTagsIsEmptyString(diskDescription: string,
                            decode: string -> Option<TagMap>, encode: TagMap -> string)
    requires decode(diskDescription) == None || decode(diskDescription) == Some(map[])
    ensures GetSnapshotTags(map[], diskDescription, decode, encode) == ""
  {
    assert SnapshotTagMap(map[], diskDescription, decode) == map[];
  }
}
