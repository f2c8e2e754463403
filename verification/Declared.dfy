/** The declarations the codec is run with: the domain's own dataclasses. */
module Declared {
  import opened Domain
  import opened Codec

  const DOMAIN: Declarations := Declarations(Schema, Accepts, Normalise, MembersOf, RegisteredClass, RegisteredEnum)

  lemma DomainIsCoherent()
    ensures Coherent(DOMAIN)
  {
    forall c, k | k in Schema(c) && Schema(c)[k].Defaults?
      ensures Built(DOMAIN, Schema(c)[k].value) && Registered(DOMAIN, Schema(c)[k].value)
    {
      assert Schema(c)[k].value in {PyNone, Str(DEFAULT_SPACE), Str(""), Tuple([])};
    }
  }

  /** The falsy values. */
  lemma FalsyIs(v: Value)
    ensures !Truthy(v) <==> v in {PyNone, Bool(false), Int(0), Float(0.0), Str(""), Tuple([])}
  {
  }

  // ----- what a decoded object is known to satisfy -----

  predicate Given(v: Value) { v !in {PyNone, Bool(false), Int(0), Float(0.0), Str(""), Tuple([])} }

  /** The invariants of the domain's objects, attribute by attribute. */
  predicate Sound(v: Value)
    requires v.Obj?
  {
    match v.cls
    case Provenance => Given(Get(v, Source))
    case EvidenceRecord => Given(Get(v, Content)) && Given(Get(v, SpaceId))
    case InferenceRecord => Given(Get(v, Content))
    case Hypothesis =>
      && Given(Get(v, Statement)) && Given(Get(v, SpaceId))
      && Get(v, SupportingEvidenceIds).Tuple? && Get(v, ContradictingEvidenceIds).Tuple?
      && forall e :: !(e in Get(v, SupportingEvidenceIds).items && e in Get(v, ContradictingEvidenceIds).items)
    case FutureTrajectory => Given(Get(v, Description))
    case Prediction =>
      Given(Get(v, SpaceId)) && (Given(Get(v, DerivedFromHypothesisIds)) || Given(Get(v, DerivedFromEvidenceIds)))
    case Inquiry =>
      Given(Get(v, Statement)) && (Given(Get(v, ActivatedHypothesisIds)) || Given(Get(v, MotivatingEvidenceIds)))
    case CurrentModelSnapshot => Given(Get(v, ModelVersionId))
    case AnomalyResolution => Given(Get(v, TriggeringEvidenceIds))
    case RevisionEvent =>
      && Given(Get(v, TriggeringEvidenceIds))
      && (Get(v, Status) == Enum(RevisionStatus, COMMITTED) ==> Get(v, ToModelVersionId) != PyNone)
    case RevisionLedgerEntry =>
      && Get(v, SequenceNo).Int? && Get(v, SequenceNo).i >= 0
      && Get(Get(v, RevisionEventField), Status) == Enum(RevisionStatus, COMMITTED)
    case RecognitionEvent => Given(Get(v, Description)) && Given(Get(v, SupportingEvidenceIds))
    case DependencyEdge =>
      && Get(v, FromRef) != Get(v, ToRef)
      && (Get(v, Relation) == Enum(DependencyRelation, DIVERGES_WITH) ==>
            Get(v, FromRef).Str? && Get(v, ToRef).Str? && !StringLess(Get(v, ToRef).s, Get(v, FromRef).s))
    case ProvenanceRecord => true
    case SystemModellingContext => true
    case WorldModel => true
    case SourceObservationRef =>
      && Given(Get(v, TranscriptId))
      && Get(v, InteractionIndex).Int? && Get(v, InteractionIndex).i >= 0
      && Get(v, ObservationIndex).Int? && Get(v, ObservationIndex).i >= 0
    case EvidenceStanding =>
      && (Get(v, SourceKind) == Enum(EvidenceSourceKind, PARTICIPANT) ==> Given(Get(v, SourceId)))
      && (Get(v, SubjectKind) == Enum(EvidenceSubjectKind, PARTICIPANT) ==> Given(Get(v, SubjectId)))
      && (Get(v, SubjectKind) == Enum(EvidenceSubjectKind, THIRD_PARTY) ==> Given(Get(v, SubjectId)))
    case EvidenceReliability => InUnit(Get(v, Magnitude))
    case HypothesisSupport => InUnit(Get(v, Magnitude))
    case ModelUncertainty => InUnit(Get(v, Magnitude))
    case ClassificationConfidence => InUnit(Get(v, Magnitude))
    case ProvenanceConfidence => InUnit(Get(v, Magnitude))
    case PredictionLikelihood => InUnit(Get(v, Magnitude))
  }

  predicate InUnit(v: Value) { v.Float? && 0.0 <= v.r <= 1.0 }

  lemma AcceptedIsSound(c: Class, f: map<Field, Value>)
    ensures Accepts(c, f) <==> Sound(Obj(c, f))
  {
    forall k ensures Arg(f, k) == Get(Obj(c, f), k) {
    }
    forall v ensures Truthy(v) <==> Given(v) {
      FalsyIs(v);
    }
  }

  /** Every object inside a value meets its invariants. */
  ghost predicate AllSound(v: Value) {
    match v
    case Tuple(items) => forall x :: x in items ==> AllSound(x)
    case Obj(c, f) => Sound(v) && f.Keys == RequiredOf(c) + OptionalOf(c) && forall k :: k in f ==> AllSound(f[k])
    case _ => true
  }

  lemma {:induction false} BuiltIsSound(v: Value)
    requires Built(DOMAIN, v)
    ensures AllSound(v)
    decreases v
  {
    match v
    case Tuple(items) =>
      forall x | x in items ensures AllSound(x) {
        BuiltIsSound(x);
      }
    case Obj(c, f) =>
      AcceptedIsSound(c, f);
      assert f.Keys == Schema(c).Keys;
      forall k | k in f ensures AllSound(f[k]) {
        BuiltIsSound(f[k]);
      }
    case _ =>
  }

  /** Whatever JSON it came from, a decoded value meets the invariants of the domain all the way down. */
  lemma DecodedIsSound(j: Json)
    requires Decode(DOMAIN, j).Some?
    ensures AllSound(Decode(DOMAIN, j).value)
  {
    DomainIsCoherent();
    DecodeBuilds(DOMAIN, j);
    BuiltIsSound(Decode(DOMAIN, j).value);
  }

  /** A magnitude written as an integer is read as a number of its class. */
  lemma IntegerMagnitude(c: Class, i: int)
    requires IsUncertainty(c)
    ensures Construct(DOMAIN, c, map[Magnitude := Int(i)]) ==
            if 0 <= i <= 1 then Some(Obj(c, map[Magnitude := Float(i as real)])) else None
  {
    var kwargs := map[Magnitude := Int(i)];
    assert Schema(c).Keys == {Magnitude} && Complete(Schema(c), kwargs) == kwargs;
    assert Normalise(c, kwargs) == map[Magnitude := Float(i as real)];
  }
}
