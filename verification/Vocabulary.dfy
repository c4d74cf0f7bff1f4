/** The closed vocabularies of a routing request, with the texts they carry on the wire. */
module Vocabulary {
  import opened Wrappers

  datatype DataClassification = Public | Internal | Confidential | Restricted

  function ClassText(c: DataClassification): string {
    match c
    case Public => "public"
    case Internal => "internal"
    case Confidential => "confidential"
    case Restricted => "restricted"
  }

  /** Reading the wire value of the enumeration. */
  function ParseClass(text: string): Option<DataClassification> {
    if text == "public" then Some(Public)
    else if text == "internal" then Some(Internal)
    else if text == "confidential" then Some(Confidential)
    else if text == "restricted" then Some(Restricted)
    else None
  }

  /** A class is written as the one text that reads as it. */
  lemma ClassRoundTrip(text: string, c: DataClassification)
    ensures ParseClass(text) == Some(c) <==> text == ClassText(c)
  {
  }

  function ClassOf(text: string): DataClassification {
    if ParseClass(text).Some? then ParseClass(text).value else Restricted
  }

  lemma ClassOfText(c: DataClassification)
    ensures ClassOf(ClassText(c)) == c
  {
    ClassRoundTrip(ClassText(c), c);
  }

  datatype RiskLevel = Low | Medium | High | Critical

  function RiskText(r: RiskLevel): string {
    match r
    case Low => "low"
    case Medium => "medium"
    case High => "high"
    case Critical => "critical"
  }

  function ParseRisk(text: string): Option<RiskLevel> {
    if text == "low" then Some(Low)
    else if text == "medium" then Some(Medium)
    else if text == "high" then Some(High)
    else if text == "critical" then Some(Critical)
    else None
  }

  lemma RiskRoundTrip(text: string, r: RiskLevel)
    ensures ParseRisk(text) == Some(r) <==> text == RiskText(r)
  {
  }

  /** Why a model group was not selected. */
  datatype ReasonCode =
    | DataClassificationNotAuthorized
    | RiskLevelNotAuthorized
    | StructuredOutputUnsupported
    | ToolCallingUnsupported
    | ContextWindowExceeded
    | CostCeilingExceeded
    | LatencyCeilingExceeded
    | ModelGroupUnavailable
    | AgentNotAllowed
    | WorkloadMappedElsewhere
}
