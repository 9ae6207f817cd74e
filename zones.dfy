/** The zone/region parser. A zone is `<region>-<letter>`; a replicated disk
    names several zones joined by `__`. */
module Zones {
  import opened Wrappers
  import opened Strings

  /** Separates the zones of a multi-zone token. */
  const ZoneSeparator := "__"

  /** Prefix of the message of a RegionParseError. */
  const RegionErrorPrefix := "failed to parse region from zone: "

  predicate IsRegionChar(c: char) {
    ('a' <= c <= 'z') || ('0' <= c <= '9') || c == '-'
  }

  /** Non-empty words of lower-case letters and digits joined by single
      dashes, e.g. `us-central1`: no leading, trailing or doubled dash. */
  predicate ValidRegion(r: string) {
    && |r| > 0 && r[0] != '-' && r[|r| - 1] != '-'
    && (forall i | 0 <= i < |r| :: IsRegionChar(r[i]))
    && (forall i | 0 <= i < |r| - 1 :: !(r[i] == '-' && r[i + 1] == '-'))
  }

  predicate IsZoneLetter(c: char) {
    'a' <= c <= 'z'
  }

  /** The region of one zone: the zone without its final `-<letter>`. */
  function ZoneRegion(zone: string): (region: Option<string>) {
    if |zone| >= 3 && zone[|zone| - 2] == '-' && IsZoneLetter(zone[|zone| - 1])
       && ValidRegion(zone[..|zone| - 2])
    then Some(zone[..|zone| - 2])
    else None
  }

  /** The token names more than one zone. */
  function IsMultiZone(token: string): (multi: bool) {
    Contains(token, ZoneSeparator)
  }

  /** The error message names the whole token, quoted as Go's `%q` does. */
  function RegionErrorMessage(token: string): (message: string) {
    RegionErrorPrefix + Quote(token)
  }

  /** The region of a (possibly multi-zone) token. Every zone must be well
      formed; the region is that of the first zone. */
  function ParseRegion(token: string): (r: Result<string>)
    ensures r.Err? ==> r.error == RegionParseError(RegionErrorMessage(token))
  {
    var zones := Split(token, ZoneSeparator);
    if forall i | 0 <= i < |zones| :: ZoneRegion(zones[i]).Some?
    then Ok(ZoneRegion(zones[0]).value)
    else Err(RegionParseError(RegionErrorMessage(token)))
  }

  /** The zones `<region>-<letter>` for the given letters. */
  function ZonesOf(region: string, letters: seq<char>): (zones: seq<string>) {
    seq(|letters|, i requires 0 <= i < |letters| => region + "-" + [letters[i]])
  }

  // ---------------------------------------------------------------------
  // Single zones

  /** `<region>-<letter>` has region `<region>`. */
  lemma ZoneRegionOf(region: string, letter: char)
    requires ValidRegion(region) && IsZoneLetter(letter)
    ensures ZoneRegion(region + "-" + [letter]) == Some(region)
  {
    var z := region + "-" + [letter];
    assert z[..|z| - 2] == region;
  }

  /** Conversely, a zone with a region is that region, a dash and a letter. */
  lemma ZoneRegionShape(zone: string)
    requires ZoneRegion(zone).Some?
    ensures ValidRegion(ZoneRegion(zone).value) && IsZoneLetter(zone[|zone| - 1])
    ensures zone == ZoneRegion(zone).value + "-" + [zone[|zone| - 1]]
  {
  }

  /** A zone holds no underscore, so it is never split apart. */
  lemma ZoneHasNoUnderscore(region: string, letter: char)
    requires ValidRegion(region) && IsZoneLetter(letter)
    ensures '_' !in region + "-" + [letter]
  {
    var z := region + "-" + [letter];
    forall i | 0 <= i < |z| ensures z[i] != '_' {
      if i < |region| { assert z[i] == region[i] && IsRegionChar(region[i]); }
    }
  }

  // ---------------------------------------------------------------------
  // Tokens

  /** A token is multi-zone exactly when it splits into more than one zone. */
  lemma IsMultiZoneSplits(token: string)
    ensures IsMultiZone(token) <==> |Split(token, ZoneSeparator)| > 1
  {
    SplitMoreThanOne(token, ZoneSeparator);
  }

  /** Zones of one region joined by `__` parse to that region, and the token is
      multi-zone exactly when it names more than one zone. */
  lemma ParseRegionOfZones(region: string, letters: seq<char>)
    requires ValidRegion(region) && |letters| > 0
    requires forall i | 0 <= i < |letters| :: IsZoneLetter(letters[i])
    ensures ParseRegion(Join(ZonesOf(region, letters), ZoneSeparator)) == Ok(region)
    ensures IsMultiZone(Join(ZonesOf(region, letters), ZoneSeparator)) <==> |letters| > 1
  {
    var zones := ZonesOf(region, letters);
    forall i | 0 <= i < |zones| ensures '_' !in zones[i] && ZoneRegion(zones[i]) == Some(region) {
      ZoneHasNoUnderscore(region, letters[i]);
      ZoneRegionOf(region, letters[i]);
    }
    SplitJoin(zones, ZoneSeparator);
    IsMultiZoneSplits(Join(zones, ZoneSeparator));
  }

  /** A single well-formed zone is not multi-zone and parses to its region. */
  lemma ParseRegionSingleZone(region: string, letter: char)
    requires ValidRegion(region) && IsZoneLetter(letter)
    ensures !IsMultiZone(region + "-" + [letter])
    ensures ParseRegion(region + "-" + [letter]) == Ok(region)
  {
    ParseRegionOfZones(region, [letter]);
    assert ZonesOf(region, [letter]) == [region + "-" + [letter]];
  }

  /** A parsed region is well formed and is the region of one of the token's
      zones; the token is `__`-joined zones that all parse. (Which zone, when
      they disagree, is not stated.) */
  lemma ParseRegionOk(token: string)
    requires ParseRegion(token).Ok?
    ensures var zones := Split(token, ZoneSeparator);
            && Join(zones, ZoneSeparator) == token
            && (forall i | 0 <= i < |zones| :: ZoneRegion(zones[i]).Some?)
            && ValidRegion(ParseRegion(token).value)
            && exists k | 0 <= k < |zones| :: ZoneRegion(zones[k]) == Some(ParseRegion(token).value)
  {
    var zones := Split(token, ZoneSeparator);
    JoinSplit(token, ZoneSeparator);
    assert ZoneRegion(zones[0]) == Some(ParseRegion(token).value);
  }

  /** A token with an ill-formed zone anywhere in it is an error whose message
      quotes the whole token, from which the token can be read back. */
  lemma ParseRegionError(token: string, k: nat)
    requires k < |Split(token, ZoneSeparator)| && ZoneRegion(Split(token, ZoneSeparator)[k]) == None
    ensures ParseRegion(token).Err?
    ensures var m := ParseRegion(token).error.message;
            && m == RegionErrorPrefix + Quote(token)
            && Unquote(m[|RegionErrorPrefix|..]) == Some(token)
  {
    var m := ParseRegion(token).error.message;
    assert m[|RegionErrorPrefix|..] == Quote(token);
    UnquoteQuote(token);
  }

  /** For a token without quotes or backslashes the message is the token in
      double quotes. */
  lemma RegionErrorMessagePlain(token: string)
    requires '"' !in token && '\\' !in token
    ensures RegionErrorMessage(token) == RegionErrorPrefix + "\"" + token + "\""
  {
    EscapePlain(token);
  }
}
