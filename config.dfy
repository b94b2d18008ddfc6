/** Reading the provider credentials and the domain from the already-parsed
    configuration (update_dns_record.py, read_config_file). */
module Config {
  import opened Wrappers
  import opened Effects

  /** A configuration section: option name to value. */
  type Section = map<string, string>

  /** A parsed configuration: section name to section. */
  type Parsed = map<string, Section>

  const SectionName: string := "godaddy"

  /** The required fields, in the order they are checked. */
  const RequiredFields: seq<string> := ["api_key", "api_secret", "domain_name"]

  datatype Credentials = Credentials(apiKey: string, apiSecret: string, domainName: string)

  /** `fields[i]` is the first of `fields` that `section` lacks. */
  predicate IsFirstMissing(fields: seq<string>, section: Section, i: int) {
    0 <= i < |fields| && fields[i] !in section &&
    forall j :: 0 <= j < i ==> fields[j] in section
  }

  /** The index of the first field that `section` lacks, if any. */
  function FirstMissing(fields: seq<string>, section: Section): (r: Option<nat>)
    ensures r.None? <==> forall i :: 0 <= i < |fields| ==> fields[i] in section
    ensures r.Some? ==> IsFirstMissing(fields, section, r.value)
  {
    if fields == [] then None
    else if fields[0] !in section then Some(0)
    else match FirstMissing(fields[1..], section)
      case None => None
      case Some(i) => Some(i + 1)
  }

  /** The parser's value interpolation: the value a read returns for a raw
      value of `section`, or None where interpolation raises (a lone `%`, a
      reference to an option that does not exist). */
  type Interpolation = (Section, string) -> Option<string>

  /** Reading present field `f` of `section`: its raw value, interpolated. */
  function Read(section: Section, interpolate: Interpolation, f: string): Option<string>
    requires f in section
  {
    interpolate(section, section[f])
  }

  /** Every one of `fields` is present, and `fields[i]` is the first whose
      value does not interpolate. */
  predicate IsFirstUninterpolated(fields: seq<string>, section: Section, interpolate: Interpolation, i: int) {
    (forall k :: 0 <= k < |fields| ==> fields[k] in section) &&
    0 <= i < |fields| && Read(section, interpolate, fields[i]).None? &&
    forall j :: 0 <= j < i ==> Read(section, interpolate, fields[j]).Some?
  }

  /** The outcome of reading the configuration, as a specification: a missing
      section first, then the first missing field, then the first value that
      does not interpolate, otherwise the three interpolated values. */
  function LoadCredentials(config: Parsed, interpolate: Interpolation): (r: Result<Credentials, Error>)
    ensures SectionName !in config ==> r == Failure(SectionMissing)
    ensures r.Success? <==>
      SectionName in config &&
      forall i :: 0 <= i < |RequiredFields| ==>
        RequiredFields[i] in config[SectionName] &&
        Read(config[SectionName], interpolate, RequiredFields[i]).Some?
    ensures r.Success? ==>
      SectionName in config && RequiredFields[0] in config[SectionName] &&
      RequiredFields[1] in config[SectionName] && RequiredFields[2] in config[SectionName] &&
      Read(config[SectionName], interpolate, RequiredFields[0]) == Some(r.value.apiKey) &&
      Read(config[SectionName], interpolate, RequiredFields[1]) == Some(r.value.apiSecret) &&
      Read(config[SectionName], interpolate, RequiredFields[2]) == Some(r.value.domainName)
    ensures SectionName in config ==>
      forall i :: 0 <= i < |RequiredFields| ==>
        (r == Failure(FieldMissing(RequiredFields[i])) <==>
         IsFirstMissing(RequiredFields, config[SectionName], i))
    ensures SectionName in config ==>
      forall i :: 0 <= i < |RequiredFields| ==>
        (r == Failure(InterpolationFailed(RequiredFields[i])) <==>
         IsFirstUninterpolated(RequiredFields, config[SectionName], interpolate, i))
  {
    if SectionName !in config then Failure(SectionMissing)
    else
      var section := config[SectionName];
      match FirstMissing(RequiredFields, section)
      case Some(i) => Failure(FieldMissing(RequiredFields[i]))
      case None =>
        assert RequiredFields[0] in section && RequiredFields[1] in section && RequiredFields[2] in section;
        var key := Read(section, interpolate, "api_key");
        var secret := Read(section, interpolate, "api_secret");
        var domain := Read(section, interpolate, "domain_name");
        if key.None? then Failure(InterpolationFailed("api_key"))
        else if secret.None? then Failure(InterpolationFailed("api_secret"))
        else if domain.None? then Failure(InterpolationFailed("domain_name"))
        else Success(Credentials(key.value, secret.value, domain.value))
  }

  /** read_config_file: check the section, walk the required fields in order
      and stop at the first one missing, then read the three values. */
  method ReadConfigFile(config: Parsed, interpolate: Interpolation) returns (r: Result<Credentials, Error>)
    ensures r == LoadCredentials(config, interpolate)
  {
    if SectionName !in config {
      return Failure(SectionMissing);
    }
    var section := config[SectionName];
    for i := 0 to |RequiredFields|
      invariant forall j :: 0 <= j < i ==> RequiredFields[j] in section
    {
      if RequiredFields[i] !in section {
        return Failure(FieldMissing(RequiredFields[i]));
      }
    }
    assert RequiredFields[0] in section && RequiredFields[1] in section && RequiredFields[2] in section;
    var key := Read(section, interpolate, "api_key");
    if key.None? {
      return Failure(InterpolationFailed("api_key"));
    }
    var secret := Read(section, interpolate, "api_secret");
    if secret.None? {
      return Failure(InterpolationFailed("api_secret"));
    }
    var domain := Read(section, interpolate, "domain_name");
    if domain.None? {
      return Failure(InterpolationFailed("domain_name"));
    }
    return Success(Credentials(key.value, secret.value, domain.value));
  }

  /** The reads follow tuple order: with an interpolation that keeps the key and
      rejects the secret (as the default one rejects a lone `%`), loading fails
      at the secret after every field was found present; the domain is never
      read. */
  lemma LoneSignSecretFails(interpolate: Interpolation)
    requires interpolate(map["api_key" := "K", "api_secret" := "a%b", "domain_name" := "d"], "K") == Some("K")
    requires interpolate(map["api_key" := "K", "api_secret" := "a%b", "domain_name" := "d"], "a%b") == None
    ensures LoadCredentials(map["godaddy" := map["api_key" := "K", "api_secret" := "a%b", "domain_name" := "d"]], interpolate) ==
      Failure(InterpolationFailed("api_secret"))
  {
    var section := map["api_key" := "K", "api_secret" := "a%b", "domain_name" := "d"];
    assert section["api_key"] == "K" && section["api_secret"] == "a%b";
  }
}
