/** The record projector: one raw study, as the registry returns it, becomes
    a flat record of fifteen fields, or a failure when the study does not
    have the shape the projector navigates. */
module StudyExtraction {
  import opened Wrappers
  import opened JsonValues

  /** Default of a record-level field whose key or section is absent. */
  const NotAvailable: string := "Not Available"
  /** Default of a missing name, measure, city or country inside a list. */
  const EntryDefault: string := "N/A"

  /** The fifteen fields of an extracted record, in the order of the dict
      the client builds; each comment gives the dict key. Values taken from
      the study keep whatever JSON type the registry sent. */
  datatype Record = Record(
    nctId: Json,                        // 'NCT ID'
    title: Json,                        // 'Title'
    status: Json,                       // 'Status'
    phases: Json,                       // 'Phases'
    conditions: Json,                   // 'Conditions'
    keywords: Json,                     // 'Keywords'
    studyType: Json,                    // 'Study Type'
    enrollment: Json,                   // 'Enrollment'
    interventions: seq<Json>,           // 'Interventions'
    briefSummary: Json,                 // 'Brief Summary'
    primaryOutcomeMeasures: seq<Json>,  // 'Primary Outcome Measures'
    eligibilityCriteria: Json,          // 'Eligibility Criteria'
    startDate: Json,                    // 'Start Date'
    completionDate: Json,               // 'Completion Date'
    locations: seq<string>)             // 'Locations'

  const Protocol: string := "protocolSection"

  /** `interv.get('name', 'N/A')` */
  function InterventionName(interv: Json): Option<Json>
  {
    Get(interv, "name", JString(EntryDefault))
  }

  /** `outcome.get('measure', 'N/A')` */
  function OutcomeMeasure(outcome: Json): Option<Json>
  {
    Get(outcome, "measure", JString(EntryDefault))
  }

  /** `f"{loc.get('city', 'N/A')}, {loc.get('country', 'N/A')}"` */
  function LocationText(loc: Json): Option<string>
  {
    var city :- Get(loc, "city", JString(EntryDefault));
    var country :- Get(loc, "country", JString(EntryDefault));
    Some(Display(city) + ", " + Display(country))
  }

  /** The projector. A failure carries the identifier known when navigation
      stopped: the study's `nctId` once it has been read, "Not Available"
      before that. Every exception inside the projection becomes a failure;
      none escapes. */
  function ExtractStudyData(study: Json): Result<Record, Json>
  {
    match Get(study, Protocol, EmptyObject)
    case None => Failure(JString(NotAvailable))
    case Some(protocol) =>
      match Get(protocol, "identificationModule", EmptyObject)
      case None => Failure(JString(NotAvailable))
      case Some(idModule) =>
        match Get(idModule, "nctId", JString(NotAvailable))
        case None => Failure(JString(NotAvailable))
        case Some(nctId) =>
          match ProjectFields(protocol, idModule, nctId)
          case None => Failure(nctId)
          case Some(record) => Success(record)
  }

  /** The part of the projection after `nctId` has been read: the rest of
      the identification module, then each section in the order the client
      reads them. The first section that fails fails the whole projection. */
  function ProjectFields(protocol: Json, idModule: Json, nctId: Json): Option<Record>
  {
    var title :- Get(idModule, "briefTitle", JString(NotAvailable));
    var (status, startDate, completionDate) :- StatusSection(protocol);
    var (phases, studyType, enrollment) :- DesignSection(protocol);
    var (conditions, keywords) :- ConditionsSection(protocol);
    var eligibility :- EligibilitySection(protocol);
    var interventionNames :- InterventionsSection(protocol);
    var briefSummary :- DescriptionSection(protocol);
    var measures :- OutcomesSection(protocol);
    var locationInfo :- LocationsSection(protocol);
    Some(Record(nctId, title, status, phases, conditions, keywords, studyType,
                enrollment, interventionNames, briefSummary, measures,
                eligibility, startDate, completionDate, locationInfo))
  }

  /** Overall status, start date and completion date. */
  function StatusSection(protocol: Json): Option<(Json, Json, Json)>
  {
    var statusModule :- Get(protocol, "statusModule", EmptyObject);
    var status :- Get(statusModule, "overallStatus", JString(NotAvailable));
    var startStruct :- Get(statusModule, "startDateStruct", EmptyObject);
    var startDate :- Get(startStruct, "date", JString(NotAvailable));
    var completionStruct :- Get(statusModule, "completionDateStruct", EmptyObject);
    var completionDate :- Get(completionStruct, "date", JString(NotAvailable));
    Some((status, startDate, completionDate))
  }

  /** Phases, study type and enrollment count; a missing count is `None`. */
  function DesignSection(protocol: Json): Option<(Json, Json, Json)>
  {
    var designModule :- Get(protocol, "designModule", EmptyObject);
    var phases :- Get(designModule, "phases", JArray([]));
    var studyType :- Get(designModule, "studyType", JString(NotAvailable));
    var enrollmentInfo :- Get(designModule, "enrollmentInfo", EmptyObject);
    var enrollment :- Get(enrollmentInfo, "count", JNull);
    Some((phases, studyType, enrollment))
  }

  /** Conditions and keywords. */
  function ConditionsSection(protocol: Json): Option<(Json, Json)>
  {
    var condModule :- Get(protocol, "conditionsModule", EmptyObject);
    var conditions :- Get(condModule, "conditions", JArray([]));
    var keywords :- Get(condModule, "keywords", JArray([]));
    Some((conditions, keywords))
  }

  /** Eligibility criteria text. */
  function EligibilitySection(protocol: Json): Option<Json>
  {
    var eligModule :- Get(protocol, "eligibilityModule", EmptyObject);
    Get(eligModule, "eligibilityCriteria", JString(NotAvailable))
  }

  /** One name per intervention. */
  function InterventionsSection(protocol: Json): Option<seq<Json>>
  {
    var intervModule :- Get(protocol, "armsInterventionsModule", EmptyObject);
    var interventionsList :- Get(intervModule, "interventions", JArray([]));
    Comprehend(interventionsList, InterventionName)
  }

  /** Brief summary text. */
  function DescriptionSection(protocol: Json): Option<Json>
  {
    var descModule :- Get(protocol, "descriptionModule", EmptyObject);
    Get(descModule, "briefSummary", JString(NotAvailable))
  }

  /** One measure per primary outcome. */
  function OutcomesSection(protocol: Json): Option<seq<Json>>
  {
    var outcomeModule :- Get(protocol, "outcomesModule", EmptyObject);
    var primaryOutcomesList :- Get(outcomeModule, "primaryOutcomes", JArray([]));
    Comprehend(primaryOutcomesList, OutcomeMeasure)
  }

  /** One "city, country" text per location. */
  function LocationsSection(protocol: Json): Option<seq<string>>
  {
    var contactLocModule :- Get(protocol, "contactsLocationsModule", EmptyObject);
    var locationsList :- Get(contactLocModule, "locations", JArray([]));
    Comprehend(locationsList, LocationText)
  }

  // ---------------------------------------------------------------------
  // Reference description of the projection, by paths into the study

  function InProtocol(section: string): seq<string> { [Protocol, section] }

  const InterventionsPath: seq<string> := [Protocol, "armsInterventionsModule", "interventions"]
  const OutcomesPath: seq<string> := [Protocol, "outcomesModule", "primaryOutcomes"]
  const LocationsPath: seq<string> := [Protocol, "contactsLocationsModule", "locations"]

  /** The shapes the projector tolerates: the study is a dict; every section
      it descends into is a dict or absent; every list it iterates is absent,
      a list of dicts, or an empty dict or string. Anything at a leaf is
      accepted as it is. */
  predicate WellShaped(study: Json)
  {
    && study.JObject?
    && ObjectOrAbsent(study, [Protocol])
    && ObjectOrAbsent(study, InProtocol("identificationModule"))
    && ObjectOrAbsent(study, InProtocol("statusModule"))
    && ObjectOrAbsent(study, [Protocol, "statusModule", "startDateStruct"])
    && ObjectOrAbsent(study, [Protocol, "statusModule", "completionDateStruct"])
    && ObjectOrAbsent(study, InProtocol("designModule"))
    && ObjectOrAbsent(study, [Protocol, "designModule", "enrollmentInfo"])
    && ObjectOrAbsent(study, InProtocol("conditionsModule"))
    && ObjectOrAbsent(study, InProtocol("eligibilityModule"))
    && ObjectOrAbsent(study, InProtocol("armsInterventionsModule"))
    && (At(study, InterventionsPath).None? || IterableOfObjects(At(study, InterventionsPath).value))
    && ObjectOrAbsent(study, InProtocol("descriptionModule"))
    && ObjectOrAbsent(study, InProtocol("outcomesModule"))
    && (At(study, OutcomesPath).None? || IterableOfObjects(At(study, OutcomesPath).value))
    && ObjectOrAbsent(study, InProtocol("contactsLocationsModule"))
    && (At(study, LocationsPath).None? || IterableOfObjects(At(study, LocationsPath).value))
  }

  /** The identifier reachable without failing: the `nctId` value when the
      study, its protocol section and its identification module are dicts
      or absent, "Not Available" otherwise. */
  function BestKnownId(study: Json): Json
  {
    if study.JObject? && ObjectOrAbsent(study, [Protocol]) && ObjectOrAbsent(study, InProtocol("identificationModule"))
    then AtOr(study, [Protocol, "identificationModule", "nctId"], JString(NotAvailable))
    else JString(NotAvailable)
  }

  // ---------------------------------------------------------------------
  // The projection agrees with the reference description

  /** The protocol section as the projector sees it: the study's, or `{}`. */
  function ProtocolOf(study: Json): Json
  {
    AtOr(study, [Protocol], EmptyObject)
  }

  /** The elements the projector visits at `path`: those of the list found
      there, and none when nothing, an empty dict or an empty string is. */
  function Entries(study: Json, path: seq<string>): seq<Json>
  {
    Elements(AtOr(study, path, JArray([])))
  }

  /** The study's identifier as the projector reads it. */
  lemma IdentificationFollowsPaths(study: Json)
    ensures Get(study, Protocol, EmptyObject).Some? <==> study.JObject?
    ensures study.JObject? ==> Get(study, Protocol, EmptyObject) == Some(ProtocolOf(study))
    ensures study.JObject? ==>
      (Get(ProtocolOf(study), "identificationModule", EmptyObject).Some? <==> ObjectOrAbsent(study, [Protocol]))
    ensures study.JObject? && ObjectOrAbsent(study, [Protocol]) ==>
      Get(ProtocolOf(study), "identificationModule", EmptyObject)
        == Some(AtOr(study, InProtocol("identificationModule"), EmptyObject))
    ensures Get(AtOr(study, InProtocol("identificationModule"), EmptyObject), "nctId", JString(NotAvailable)).Some?
        <==> ObjectOrAbsent(study, InProtocol("identificationModule"))
    ensures ObjectOrAbsent(study, InProtocol("identificationModule")) ==>
      && Get(AtOr(study, InProtocol("identificationModule"), EmptyObject), "nctId", JString(NotAvailable))
           == Some(AtOr(study, [Protocol, "identificationModule", "nctId"], JString(NotAvailable)))
      && Get(AtOr(study, InProtocol("identificationModule"), EmptyObject), "briefTitle", JString(NotAvailable))
           == Some(AtOr(study, [Protocol, "identificationModule", "briefTitle"], JString(NotAvailable)))
  {
    assert At(study, []) == Some(study);
    var m := InProtocol("identificationModule");
    GetStep(study, [], Protocol, EmptyObject, [Protocol]);
    GetStep(study, [Protocol], "identificationModule", EmptyObject, m);
    GetStep(study, m, "nctId", JString(NotAvailable), [Protocol, "identificationModule", "nctId"]);
    GetStep(study, m, "briefTitle", JString(NotAvailable), [Protocol, "identificationModule", "briefTitle"]);
  }

  lemma StatusSectionFollowsPaths(study: Json)
    requires ObjectOrAbsent(study, [Protocol])
    ensures StatusSection(ProtocolOf(study)).Some? <==>
      && ObjectOrAbsent(study, InProtocol("statusModule"))
      && ObjectOrAbsent(study, [Protocol, "statusModule", "startDateStruct"])
      && ObjectOrAbsent(study, [Protocol, "statusModule", "completionDateStruct"])
    ensures StatusSection(ProtocolOf(study)).Some? ==>
      StatusSection(ProtocolOf(study)).value ==
      ( AtOr(study, [Protocol, "statusModule", "overallStatus"], JString(NotAvailable)),
        AtOr(study, [Protocol, "statusModule", "startDateStruct", "date"], JString(NotAvailable)),
        AtOr(study, [Protocol, "statusModule", "completionDateStruct", "date"], JString(NotAvailable)))
  {
    var m := InProtocol("statusModule");
    var start := [Protocol, "statusModule", "startDateStruct"];
    var completion := [Protocol, "statusModule", "completionDateStruct"];
    GetStep(study, [Protocol], "statusModule", EmptyObject, m);
    GetStep(study, m, "overallStatus", JString(NotAvailable), [Protocol, "statusModule", "overallStatus"]);
    GetStep(study, m, "startDateStruct", EmptyObject, start);
    GetStep(study, start, "date", JString(NotAvailable), [Protocol, "statusModule", "startDateStruct", "date"]);
    GetStep(study, m, "completionDateStruct", EmptyObject, completion);
    GetStep(study, completion, "date", JString(NotAvailable), [Protocol, "statusModule", "completionDateStruct", "date"]);
  }

  lemma DesignSectionFollowsPaths(study: Json)
    requires ObjectOrAbsent(study, [Protocol])
    ensures DesignSection(ProtocolOf(study)).Some? <==>
      && ObjectOrAbsent(study, InProtocol("designModule"))
      && ObjectOrAbsent(study, [Protocol, "designModule", "enrollmentInfo"])
    ensures DesignSection(ProtocolOf(study)).Some? ==>
      DesignSection(ProtocolOf(study)).value ==
      ( AtOr(study, [Protocol, "designModule", "phases"], JArray([])),
        AtOr(study, [Protocol, "designModule", "studyType"], JString(NotAvailable)),
        AtOr(study, [Protocol, "designModule", "enrollmentInfo", "count"], JNull))
  {
    var m := InProtocol("designModule");
    var info := [Protocol, "designModule", "enrollmentInfo"];
    GetStep(study, [Protocol], "designModule", EmptyObject, m);
    GetStep(study, m, "phases", JArray([]), [Protocol, "designModule", "phases"]);
    GetStep(study, m, "studyType", JString(NotAvailable), [Protocol, "designModule", "studyType"]);
    GetStep(study, m, "enrollmentInfo", EmptyObject, info);
    GetStep(study, info, "count", JNull, [Protocol, "designModule", "enrollmentInfo", "count"]);
  }

  lemma ConditionsSectionFollowsPaths(study: Json)
    requires ObjectOrAbsent(study, [Protocol])
    ensures ConditionsSection(ProtocolOf(study)).Some? <==> ObjectOrAbsent(study, InProtocol("conditionsModule"))
    ensures ConditionsSection(ProtocolOf(study)).Some? ==>
      ConditionsSection(ProtocolOf(study)).value ==
      ( AtOr(study, [Protocol, "conditionsModule", "conditions"], JArray([])),
        AtOr(study, [Protocol, "conditionsModule", "keywords"], JArray([])))
  {
    var m := InProtocol("conditionsModule");
    GetStep(study, [Protocol], "conditionsModule", EmptyObject, m);
    GetStep(study, m, "conditions", JArray([]), [Protocol, "conditionsModule", "conditions"]);
    GetStep(study, m, "keywords", JArray([]), [Protocol, "conditionsModule", "keywords"]);
  }

  lemma EligibilitySectionFollowsPaths(study: Json)
    requires ObjectOrAbsent(study, [Protocol])
    ensures EligibilitySection(ProtocolOf(study)).Some? <==> ObjectOrAbsent(study, InProtocol("eligibilityModule"))
    ensures EligibilitySection(ProtocolOf(study)).Some? ==>
      EligibilitySection(ProtocolOf(study)).value ==
        AtOr(study, [Protocol, "eligibilityModule", "eligibilityCriteria"], JString(NotAvailable))
  {
    var m := InProtocol("eligibilityModule");
    GetStep(study, [Protocol], "eligibilityModule", EmptyObject, m);
    GetStep(study, m, "eligibilityCriteria", JString(NotAvailable), [Protocol, "eligibilityModule", "eligibilityCriteria"]);
  }

  lemma DescriptionSectionFollowsPaths(study: Json)
    requires ObjectOrAbsent(study, [Protocol])
    ensures DescriptionSection(ProtocolOf(study)).Some? <==> ObjectOrAbsent(study, InProtocol("descriptionModule"))
    ensures DescriptionSection(ProtocolOf(study)).Some? ==>
      DescriptionSection(ProtocolOf(study)).value ==
        AtOr(study, [Protocol, "descriptionModule", "briefSummary"], JString(NotAvailable))
  {
    var m := InProtocol("descriptionModule");
    GetStep(study, [Protocol], "descriptionModule", EmptyObject, m);
    GetStep(study, m, "briefSummary", JString(NotAvailable), [Protocol, "descriptionModule", "briefSummary"]);
  }

  /** A dict element's value under `key`, or "N/A" when the key is absent. */
  function EntryOr(entry: Json, key: string): Json
  {
    AtOr(entry, [key], JString(EntryDefault))
  }

  lemma EntryGet(entry: Json, key: string)
    requires entry.JObject?
    ensures Get(entry, key, JString(EntryDefault)) == Some(EntryOr(entry, key))
  {
    var fields := entry.fields;
    assert [key][0] == key && [key][1..] == [];
    if key in fields {
      assert At(fields[key], []) == Some(fields[key]);
    }
  }

  lemma InterventionsSectionFollowsPaths(study: Json)
    requires ObjectOrAbsent(study, [Protocol])
    ensures InterventionsSection(ProtocolOf(study)).Some? <==>
      && ObjectOrAbsent(study, InProtocol("armsInterventionsModule"))
      && (At(study, InterventionsPath).None? || IterableOfObjects(At(study, InterventionsPath).value))
    ensures InterventionsSection(ProtocolOf(study)).Some? ==>
      var names, entries := InterventionsSection(ProtocolOf(study)).value, Entries(study, InterventionsPath);
      && |names| == |entries|
      && forall i :: 0 <= i < |entries| ==> names[i] == EntryOr(entries[i], "name")
  {
    var m := InProtocol("armsInterventionsModule");
    GetStep(study, [Protocol], "armsInterventionsModule", EmptyObject, m);
    GetStep(study, m, "interventions", JArray([]), InterventionsPath);
    var src := AtOr(study, InterventionsPath, JArray([]));
    ComprehendObjects(src, InterventionName);
    forall i | 0 <= i < |Elements(src)| && Elements(src)[i].JObject? {
      EntryGet(Elements(src)[i], "name");
    }
  }

  lemma OutcomesSectionFollowsPaths(study: Json)
    requires ObjectOrAbsent(study, [Protocol])
    ensures OutcomesSection(ProtocolOf(study)).Some? <==>
      && ObjectOrAbsent(study, InProtocol("outcomesModule"))
      && (At(study, OutcomesPath).None? || IterableOfObjects(At(study, OutcomesPath).value))
    ensures OutcomesSection(ProtocolOf(study)).Some? ==>
      var measures, entries := OutcomesSection(ProtocolOf(study)).value, Entries(study, OutcomesPath);
      && |measures| == |entries|
      && forall i :: 0 <= i < |entries| ==> measures[i] == EntryOr(entries[i], "measure")
  {
    var m := InProtocol("outcomesModule");
    GetStep(study, [Protocol], "outcomesModule", EmptyObject, m);
    GetStep(study, m, "primaryOutcomes", JArray([]), OutcomesPath);
    var src := AtOr(study, OutcomesPath, JArray([]));
    ComprehendObjects(src, OutcomeMeasure);
    forall i | 0 <= i < |Elements(src)| && Elements(src)[i].JObject? {
      EntryGet(Elements(src)[i], "measure");
    }
  }

  /** The text of one location: its city and its country, each "N/A" when
      absent, joined by a comma and a space. */
  function LocationOf(loc: Json): string
  {
    Display(EntryOr(loc, "city")) + ", " + Display(EntryOr(loc, "country"))
  }

  lemma LocationsSectionFollowsPaths(study: Json)
    requires ObjectOrAbsent(study, [Protocol])
    ensures LocationsSection(ProtocolOf(study)).Some? <==>
      && ObjectOrAbsent(study, InProtocol("contactsLocationsModule"))
      && (At(study, LocationsPath).None? || IterableOfObjects(At(study, LocationsPath).value))
    ensures LocationsSection(ProtocolOf(study)).Some? ==>
      var texts, entries := LocationsSection(ProtocolOf(study)).value, Entries(study, LocationsPath);
      && |texts| == |entries|
      && forall i :: 0 <= i < |entries| ==> texts[i] == LocationOf(entries[i])
  {
    var m := InProtocol("contactsLocationsModule");
    GetStep(study, [Protocol], "contactsLocationsModule", EmptyObject, m);
    GetStep(study, m, "locations", JArray([]), LocationsPath);
    var src := AtOr(study, LocationsPath, JArray([]));
    ComprehendObjects(src, LocationText);
    forall i | 0 <= i < |Elements(src)| && Elements(src)[i].JObject?
      ensures LocationText(Elements(src)[i]) == Some(LocationOf(Elements(src)[i]))
    {
      EntryGet(Elements(src)[i], "city");
      EntryGet(Elements(src)[i], "country");
    }
  }

  // ---------------------------------------------------------------------
  // What the projection promises, stated against the reference description

  /** Extraction succeeds exactly on the well-shaped studies; every other
      study yields a failure, and no failure escapes. */
  lemma ExtractSucceedsIffWellShaped(study: Json)
    ensures ExtractStudyData(study).Success? <==> WellShaped(study)
  {
    IdentificationFollowsPaths(study);
    if study.JObject? && ObjectOrAbsent(study, [Protocol]) {
      StatusSectionFollowsPaths(study);
      DesignSectionFollowsPaths(study);
      ConditionsSectionFollowsPaths(study);
      EligibilitySectionFollowsPaths(study);
      InterventionsSectionFollowsPaths(study);
      DescriptionSectionFollowsPaths(study);
      OutcomesSectionFollowsPaths(study);
      LocationsSectionFollowsPaths(study);
    }
  }

  /** Each text field of a successful extraction is the value at its path in
      the study, or "Not Available" when a key along that path is absent. */
  lemma TextFieldsFollowPaths(study: Json)
    requires ExtractStudyData(study).Success?
    ensures var r, na := ExtractStudyData(study).value, JString(NotAvailable);
      && r.nctId == AtOr(study, [Protocol, "identificationModule", "nctId"], na)
      && r.title == AtOr(study, [Protocol, "identificationModule", "briefTitle"], na)
      && r.status == AtOr(study, [Protocol, "statusModule", "overallStatus"], na)
      && r.startDate == AtOr(study, [Protocol, "statusModule", "startDateStruct", "date"], na)
      && r.completionDate == AtOr(study, [Protocol, "statusModule", "completionDateStruct", "date"], na)
      && r.studyType == AtOr(study, [Protocol, "designModule", "studyType"], na)
      && r.eligibilityCriteria == AtOr(study, [Protocol, "eligibilityModule", "eligibilityCriteria"], na)
      && r.briefSummary == AtOr(study, [Protocol, "descriptionModule", "briefSummary"], na)
  {
    IdentificationFollowsPaths(study);
    if study.JObject? && ObjectOrAbsent(study, [Protocol]) {
      StatusSectionFollowsPaths(study);
      DesignSectionFollowsPaths(study);
      ConditionsSectionFollowsPaths(study);
      EligibilitySectionFollowsPaths(study);
      InterventionsSectionFollowsPaths(study);
      DescriptionSectionFollowsPaths(study);
      OutcomesSectionFollowsPaths(study);
      LocationsSectionFollowsPaths(study);
    }
  }

  /** Phases, conditions and keywords are passed through unchanged and are
      `[]` when absent; the enrollment count is `None` (not 0) when absent. */
  lemma ListFieldsPassThrough(study: Json)
    requires ExtractStudyData(study).Success?
    ensures var r := ExtractStudyData(study).value;
      && r.phases == AtOr(study, [Protocol, "designModule", "phases"], JArray([]))
      && r.conditions == AtOr(study, [Protocol, "conditionsModule", "conditions"], JArray([]))
      && r.keywords == AtOr(study, [Protocol, "conditionsModule", "keywords"], JArray([]))
      && r.enrollment == AtOr(study, [Protocol, "designModule", "enrollmentInfo", "count"], JNull)
  {
    IdentificationFollowsPaths(study);
    if study.JObject? && ObjectOrAbsent(study, [Protocol]) {
      StatusSectionFollowsPaths(study);
      DesignSectionFollowsPaths(study);
      ConditionsSectionFollowsPaths(study);
      EligibilitySectionFollowsPaths(study);
      InterventionsSectionFollowsPaths(study);
      DescriptionSectionFollowsPaths(study);
      OutcomesSectionFollowsPaths(study);
      LocationsSectionFollowsPaths(study);
    }
  }

  /** Interventions, primary outcome measures and locations have exactly one
      entry per source element, in source order; a missing name, measure,
      city or country becomes "N/A". */
  lemma EntryListsFollowPaths(study: Json)
    requires ExtractStudyData(study).Success?
    ensures var r := ExtractStudyData(study).value;
      && |r.interventions| == |Entries(study, InterventionsPath)|
      && (forall i :: 0 <= i < |r.interventions| ==>
            r.interventions[i] == EntryOr(Entries(study, InterventionsPath)[i], "name"))
      && |r.primaryOutcomeMeasures| == |Entries(study, OutcomesPath)|
      && (forall i :: 0 <= i < |r.primaryOutcomeMeasures| ==>
            r.primaryOutcomeMeasures[i] == EntryOr(Entries(study, OutcomesPath)[i], "measure"))
      && |r.locations| == |Entries(study, LocationsPath)|
      && (forall i :: 0 <= i < |r.locations| ==>
            r.locations[i] == LocationOf(Entries(study, LocationsPath)[i]))
  {
    IdentificationFollowsPaths(study);
    if study.JObject? && ObjectOrAbsent(study, [Protocol]) {
      StatusSectionFollowsPaths(study);
      DesignSectionFollowsPaths(study);
      ConditionsSectionFollowsPaths(study);
      EligibilitySectionFollowsPaths(study);
      InterventionsSectionFollowsPaths(study);
      DescriptionSectionFollowsPaths(study);
      OutcomesSectionFollowsPaths(study);
      LocationsSectionFollowsPaths(study);
    }
  }

  /** A failed extraction reports the identifier known when it stopped:
      "Not Available" if the identifier itself was unreachable. */
  lemma FailureCarriesBestKnownId(study: Json)
    requires ExtractStudyData(study).Failure?
    ensures ExtractStudyData(study).error == BestKnownId(study)
  {
    IdentificationFollowsPaths(study);
  }

  /** A study without a protocol section is not malformed: every field takes
      its default. */
  lemma MissingProtocolGivesDefaults(study: Json)
    requires study.JObject? && Protocol !in study.fields
    ensures var na := JString(NotAvailable);
      ExtractStudyData(study) == Success(Record(na, na, na, JArray([]), JArray([]), JArray([]), na,
                                                JNull, [], na, [], na, na, na, []))
  {
  }
}
