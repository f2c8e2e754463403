/** Python values as the persistence layer sees them.

    Every domain object is a frozen dataclass built from primitives, enum members,
    datetimes, tuples and other dataclasses.  `Value` is that universe.  Class, enum,
    member and attribute names are only ever compared for equality by the code, so they
    are constructors of `Class`, `EnumType`, `Member` and `Field` instead of strings. */
module Domain {

  datatype Option<+T> = None | Some(value: T)

  datatype Class =
    | Provenance | EvidenceRecord | InferenceRecord | Hypothesis | FutureTrajectory | Prediction
    | Inquiry | ProvenanceRecord | SystemModellingContext | WorldModel | CurrentModelSnapshot
    | AnomalyResolution | RevisionEvent | RevisionLedgerEntry | RecognitionEvent | DependencyEdge
    | EvidenceReliability | HypothesisSupport | ModelUncertainty | ClassificationConfidence
    | ProvenanceConfidence | PredictionLikelihood
    | SourceObservationRef | EvidenceStanding

  datatype EnumType =
    | EvidenceClass | InquiryStatus | RevisionOutcome | RevisionStatus | AnomalyDisposition
    | TrajectoryKind | RecognitionKind | DependencyRelation
    | EvidenceSourceKind | EvidenceSubjectKind | EvidenceRole

  datatype Member =
    | NARRATIVE | REFLECTIVE | BEHAVIOURAL | CONTRADICTORY | MISSING | FAILED_ACQUISITION
    | PROPOSED | ACTIVE | DORMANT | LOCALLY_RESOLVED | REOPENED | SUPERSEDED | CLOSED
    | STRENGTHEN | WEAKEN | CONTRADICT | HYPOTHESIZE
    | COMMITTED
    | REJECT | ASSIMILATE | REVISE | EXPAND | ESCALATE
    | OBSERVED_TRAJECTORY | RECURRING_CYCLE | FREQUENCY_CHANGE | INTERRUPTION_OPPORTUNITY
    | SUPPORTS | CONTRADICTS | DERIVED_FROM | SUPERSEDES | MOTIVATES | ACTIVATES | TRACES_TO | DIVERGES_WITH
    | PARTICIPANT | SANUVIA | SYSTEM_SURFACE | EXTERNAL_SOURCE | DYAD | THIRD_PARTY | NONE
    | EVENT_OBSERVATION | ACCOUNT | RESPONSE_OR_RESONANCE | META_INSTRUCTION

  datatype Field =
    | Id | SubjectId | SpaceId | ActorId | RecordId | HypothesisId | ModelVersionId
    | Source | Confidence | AcquisitionMetadata
    | EvidenceClassField | Content | ProvenanceField | Reliability | ClassificationConfidenceField
    | OccurredAt | OriginRef | SourceRef | Standing
    | DerivedFromEvidenceIds | DerivedFromInferenceIds | DerivedFromHypothesisIds | ProducedAt | RelatesTo
    | Statement | Support | SupportingEvidenceIds | ContradictingEvidenceIds
    | EvaluatedAtVersion | EvaluatedAt | SupersedesRecordId
    | Kind | Description | Trajectory | Likelihood | CreatedAt
    | Status | ActivatedHypothesisIds | MotivatingEvidenceIds | CurrentUncertainty | ProducedByRevisionId
    | TracesToEvidenceIds | TracesToRevisionIds | Parameters
    | ReasoningSystemId | ModelUncertaintyField | ActiveHypothesisIds | ActivePredictionIds | ActiveInquiryIds
    | CreatedByRevisionId | ProvenanceRecordId | ModellingContext | CommittedAt
    | Disposition | TriggeringEvidenceIds | Note
    | AffectedObjectId | Outcome | FromModelVersionId | ToModelVersionId | AnomalyResolutionId
    | SequenceNo | RevisionEventField | AppendedAt
    | FromRef | ToRef | Relation | Magnitude
    | TranscriptId | InteractionIndex | ObservationIndex
    | SourceKind | SubjectKind | Role | SourceId

  /** A Python value.  A datetime is identified with its ISO text. */
  datatype Value =
    | PyNone
    | Bool(b: bool)
    | Int(i: int)
    | Float(r: real)
    | Str(s: string)
    | Enum(etype: EnumType, member: Member)
    | Time(iso: string)
    | Tuple(items: seq<Value>)
    | Obj(cls: Class, fields: map<Field, Value>)

  /** Attribute access; an absent attribute reads as `PyNone`. */
  function Get(v: Value, f: Field): Value {
    if v.Obj? && f in v.fields then v.fields[f] else PyNone
  }

  /** Python truthiness. */
  predicate Truthy(v: Value) {
    match v
    case PyNone => false
    case Bool(b) => b
    case Int(i) => i != 0
    case Float(r) => r != 0.0
    case Str(s) => s != ""
    case Tuple(items) => items != []
    case _ => true
  }

  const DEFAULT_SPACE: string := "space:default"

  datatype Default = Required | Defaults(value: Value)

  /** The fields a constructor call has to name. */
  function RequiredOf(c: Class): set<Field> {
    match c
    case Provenance => {Source, Confidence}
    case EvidenceRecord =>
      {Id, SubjectId, EvidenceClassField, Content, ProvenanceField, Reliability, ClassificationConfidenceField,
       OccurredAt}
    case InferenceRecord => {Id, SubjectId, Content, DerivedFromEvidenceIds, DerivedFromInferenceIds, ProducedAt}
    case Hypothesis =>
      {RecordId, HypothesisId, SubjectId, Statement, Support, SupportingEvidenceIds, ContradictingEvidenceIds,
       EvaluatedAtVersion, EvaluatedAt}
    case FutureTrajectory => {Kind, Description}
    case Prediction =>
      {Id, SubjectId, Trajectory, Likelihood, DerivedFromHypothesisIds, DerivedFromEvidenceIds, ModelVersionId,
       CreatedAt}
    case Inquiry =>
      {Id, SubjectId, Statement, Status, ActivatedHypothesisIds, MotivatingEvidenceIds, CurrentUncertainty, CreatedAt}
    case ProvenanceRecord => {Id, SubjectId, TracesToEvidenceIds, TracesToRevisionIds, CreatedAt}
    case SystemModellingContext => {}
    case WorldModel =>
      {ModelVersionId, SubjectId, ReasoningSystemId, ModelUncertaintyField, ActiveHypothesisIds, ActivePredictionIds,
       ActiveInquiryIds, CreatedAt}
    case CurrentModelSnapshot => {SubjectId, ModelVersionId, CommittedAt}
    case AnomalyResolution => {Id, SubjectId, Disposition, TriggeringEvidenceIds, CreatedAt}
    case RevisionEvent => {Id, SubjectId, AffectedObjectId, Outcome, TriggeringEvidenceIds, Status, CreatedAt}
    case RevisionLedgerEntry => {SequenceNo, RevisionEventField, AppendedAt}
    case RecognitionEvent => {Id, SubjectId, Kind, Description, SupportingEvidenceIds, ModelVersionId, CreatedAt}
    case DependencyEdge => {Id, FromRef, ToRef, Relation, CreatedAt}
    case SourceObservationRef => {TranscriptId, InteractionIndex, ObservationIndex}
    case EvidenceStanding => {SourceKind, SubjectKind, Role}
    case _ => {Magnitude}
  }

  /** The fields a constructor call may leave out. */
  function OptionalOf(c: Class): set<Field> {
    match c
    case Provenance => {AcquisitionMetadata}
    case EvidenceRecord => {OriginRef, SpaceId, ActorId, SourceRef, Standing}
    case InferenceRecord => {RelatesTo, SpaceId}
    case Hypothesis => {SupersedesRecordId, SpaceId}
    case Inquiry => {ProducedByRevisionId, SpaceId}
    case SystemModellingContext => {Parameters, Id}
    case WorldModel => {CreatedByRevisionId, ProvenanceRecordId, ModellingContext, SpaceId}
    case AnomalyResolution => {Note, SpaceId}
    case RevisionEvent => {FromModelVersionId, ToModelVersionId, AnomalyResolutionId, SpaceId}
    case Prediction => {SpaceId}
    case ProvenanceRecord => {SpaceId}
    case CurrentModelSnapshot => {SpaceId}
    case RecognitionEvent => {SpaceId}
    case EvidenceStanding => {SourceId, SubjectId}
    case _ => {}
  }

  function DefaultOf(f: Field): Value {
    match f
    case SpaceId => Str(DEFAULT_SPACE)
    case AcquisitionMetadata => Tuple([])
    case RelatesTo => Tuple([])
    case Parameters => Tuple([])
    case Note => Str("")
    case _ => PyNone
  }

  /** The declared fields of a dataclass, each with its default if it has one. */
  function Schema(c: Class): map<Field, Default> {
    map f | f in RequiredOf(c) + OptionalOf(c) :: if f in RequiredOf(c) then Required else Defaults(DefaultOf(f))
  }

  function MembersOf(e: EnumType): set<Member> {
    match e
    case EvidenceClass => {NARRATIVE, REFLECTIVE, BEHAVIOURAL, CONTRADICTORY, MISSING, FAILED_ACQUISITION}
    case InquiryStatus => {PROPOSED, ACTIVE, DORMANT, LOCALLY_RESOLVED, REOPENED, SUPERSEDED, CLOSED}
    case RevisionOutcome => {STRENGTHEN, WEAKEN, CONTRADICT, HYPOTHESIZE}
    case RevisionStatus => {PROPOSED, COMMITTED}
    case AnomalyDisposition => {REJECT, ASSIMILATE, REVISE, EXPAND, ESCALATE}
    case TrajectoryKind => {OBSERVED_TRAJECTORY, RECURRING_CYCLE, FREQUENCY_CHANGE, INTERRUPTION_OPPORTUNITY}
    case RecognitionKind => {OBSERVED_TRAJECTORY, RECURRING_CYCLE, FREQUENCY_CHANGE, INTERRUPTION_OPPORTUNITY}
    case DependencyRelation =>
      {SUPPORTS, CONTRADICTS, DERIVED_FROM, SUPERSEDES, MOTIVATES, ACTIVATES, TRACES_TO, DIVERGES_WITH}
    case EvidenceSourceKind => {PARTICIPANT, SANUVIA, SYSTEM_SURFACE, EXTERNAL_SOURCE}
    case EvidenceSubjectKind => {PARTICIPANT, DYAD, THIRD_PARTY, NONE}
    case EvidenceRole => {EVENT_OBSERVATION, ACCOUNT, RESPONSE_OR_RESONANCE, META_INSTRUCTION}
  }

  predicate IsUncertainty(c: Class) {
    || c.EvidenceReliability? || c.HypothesisSupport? || c.ModelUncertainty?
    || c.ClassificationConfidence? || c.ProvenanceConfidence? || c.PredictionLikelihood?
  }

  /** Code-point order on strings, as Python compares them. */
  predicate StringLess(a: string, b: string)
    decreases |a|
  {
    |b| > 0 && (|a| == 0 || a[0] < b[0] || (a[0] == b[0] && StringLess(a[1..], b[1..])))
  }

  const COMMITTED_STATUS := Enum(RevisionStatus, COMMITTED)

  function Arg(f: map<Field, Value>, k: Field): Value {
    if k in f then f[k] else PyNone
  }

  /** The checks of `__post_init__`, on the fully defaulted attributes. */
  predicate Accepts(c: Class, f: map<Field, Value>) {
    if IsUncertainty(c) then Arg(f, Magnitude).Float? && 0.0 <= Arg(f, Magnitude).r <= 1.0 else
    match c
    case Provenance => Truthy(Arg(f, Source))
    case EvidenceRecord => Truthy(Arg(f, Content)) && Truthy(Arg(f, SpaceId))
    case InferenceRecord => Truthy(Arg(f, Content))
    case Hypothesis =>
      && Truthy(Arg(f, Statement)) && Truthy(Arg(f, SpaceId))
      && Arg(f, SupportingEvidenceIds).Tuple? && Arg(f, ContradictingEvidenceIds).Tuple?
      && forall e :: e in Arg(f, SupportingEvidenceIds).items ==> e !in Arg(f, ContradictingEvidenceIds).items
    case FutureTrajectory => Truthy(Arg(f, Description))
    case Prediction =>
      && (Truthy(Arg(f, DerivedFromHypothesisIds)) || Truthy(Arg(f, DerivedFromEvidenceIds)))
      && Truthy(Arg(f, SpaceId))
    case Inquiry =>
      Truthy(Arg(f, Statement)) && (Truthy(Arg(f, ActivatedHypothesisIds)) || Truthy(Arg(f, MotivatingEvidenceIds)))
    case CurrentModelSnapshot => Truthy(Arg(f, ModelVersionId))
    case AnomalyResolution => Truthy(Arg(f, TriggeringEvidenceIds))
    case RevisionEvent =>
      && Truthy(Arg(f, TriggeringEvidenceIds))
      && (Arg(f, Status) == COMMITTED_STATUS ==> Arg(f, ToModelVersionId) != PyNone)
    case RevisionLedgerEntry =>
      && Arg(f, SequenceNo).Int? && Arg(f, SequenceNo).i >= 0
      && Get(Arg(f, RevisionEventField), Status) == COMMITTED_STATUS
    case RecognitionEvent => Truthy(Arg(f, Description)) && Truthy(Arg(f, SupportingEvidenceIds))
    case DependencyEdge =>
      && Arg(f, FromRef) != Arg(f, ToRef)
      && (Arg(f, Relation) == Enum(DependencyRelation, DIVERGES_WITH) ==>
            Arg(f, FromRef).Str? && Arg(f, ToRef).Str? && !StringLess(Arg(f, ToRef).s, Arg(f, FromRef).s))
    case SourceObservationRef =>
      && Truthy(Arg(f, TranscriptId))
      && Arg(f, InteractionIndex).Int? && Arg(f, InteractionIndex).i >= 0
      && Arg(f, ObservationIndex).Int? && Arg(f, ObservationIndex).i >= 0
    case EvidenceStanding =>
      && (Arg(f, SourceKind) == Enum(EvidenceSourceKind, PARTICIPANT) ==> Truthy(Arg(f, SourceId)))
      && (Arg(f, SubjectKind) in {Enum(EvidenceSubjectKind, PARTICIPANT), Enum(EvidenceSubjectKind, THIRD_PARTY)} ==>
            Truthy(Arg(f, SubjectId)))
    case _ => true
  }

  /** The one rewriting constructor: an uncertainty turns an int magnitude into a float. */
  function Normalise(c: Class, f: map<Field, Value>): map<Field, Value> {
    if IsUncertainty(c) && Magnitude in f && f[Magnitude].Int?
    then f[Magnitude := Float(f[Magnitude].i as real)] else f
  }

  /** The classes and enums listed in the codec's registries. */
  predicate RegisteredClass(c: Class) { !c.SourceObservationRef? && !c.EvidenceStanding? }
  predicate RegisteredEnum(e: EnumType) {
    !e.EvidenceSourceKind? && !e.EvidenceSubjectKind? && !e.EvidenceRole?
  }
}
