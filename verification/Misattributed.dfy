/** One legacy database, written out, whose migration attributes a prediction to somebody else. */
module Misattributed {
  import opened Domain
  import opened Codec
  import opened Declared
  import opened Tables
  import opened Containers
  import opened Ledger
  import opened Sql
  import opened Refinement
  import opened Divergence
  import opened Patching
  import opened Migration
  import opened Migrated
  import opened Upgrade

  /** A world model as the pre-isolation schema wrote it, with one active prediction. */
  function OldModel(subject: string, prediction: string): Attrs {
    map[ModelVersionId := Str("v1"), SubjectId := Str(subject), ReasoningSystemId := Str("r"),
        ModelUncertaintyField := Rated(ModelUncertainty), ActiveHypothesisIds := Tuple([]),
        ActivePredictionIds := Tuple([Str(prediction)]), ActiveInquiryIds := Tuple([]),
        CreatedAt := Time("2024-01-01T00:00:00")]
  }

  /** An evidence record of the same time. */
  function OldEvidence(subject: string): Attrs {
    map[Id := Str("e1"), SubjectId := Str(subject), EvidenceClassField := Enum(EvidenceClass, NARRATIVE),
        Content := Str("c"), ProvenanceField := Obj(Provenance, SOURCED), Reliability := Rated(EvidenceReliability),
        ClassificationConfidenceField := Rated(ClassificationConfidence), OccurredAt := Time("2024-01-01T00:00:00")]
  }

  /** The row an object is kept in: its columns and its blob. */
  function RowOf(t: Table, f: Attrs): Row {
    Row(map c | c in LegacyColumns(t) && FieldOf(c) in f :: f[FieldOf(c)], Encode(Obj(ClassOf(t), f)))
  }

  // ----- the objects are ones the migration completes -----

  lemma OldModelPart(subject: string, prediction: string, f: Attrs, k: Field)
    requires f == OldModel(subject, prediction) && k in f
    ensures Built(DOMAIN, f[k]) && Registered(DOMAIN, f[k])
  {
    if k == ModelUncertaintyField {
      RatedBuilds(ModelUncertainty);
    } else if k == ActivePredictionIds {
      NamesBuild(DOMAIN, prediction);
    } else if k == ActiveHypothesisIds || k == ActiveInquiryIds {
      NoNamesBuild(DOMAIN);
    } else {
      PlainBuilds(DOMAIN, f[k]);
    }
  }

  lemma NamesBuild(d: Declarations, name: string)
    ensures Built(d, Tuple([Str(name)])) && Registered(d, Tuple([Str(name)]))
  {
  }

  lemma NoNamesBuild(d: Declarations)
    ensures Built(d, Tuple([])) && Registered(d, Tuple([]))
  {
  }

  lemma OldModelKeys(subject: string, prediction: string)
    ensures OldModel(subject, prediction).Keys == RequiredOf(WorldModel)
  {
  }

  ghost predicate PartsRegistered(f: Attrs) { forall k :: k in f ==> Built(DOMAIN, f[k]) && Registered(DOMAIN, f[k]) }

  lemma OldModelParts(subject: string, prediction: string)
    ensures PartsRegistered(OldModel(subject, prediction))
  {
    var f := OldModel(subject, prediction);
    forall k | k in f ensures Built(DOMAIN, f[k]) && Registered(DOMAIN, f[k]) {
      OldModelPart(subject, prediction, f, k);
    }
  }

  /** Attributes that leave out nothing required, with those the migration adds, make an object of the class. */
  lemma AddedUpgrades(c: Class, f: Attrs, adds: Attrs)
    requires RegisteredClass(c) && f.Keys == RequiredOf(c) && adds.Keys <= OptionalOf(c)
    requires PartsRegistered(f) && PartsRegistered(adds)
    requires Accepts(c, Complete(Schema(c), adds + f))
    ensures Upgradable(c, adds + f)
  {
  }

  lemma AddsRegistered()
    ensures PartsRegistered(SPACE) && PartsRegistered(SPACE[ActorId := PyNone])
  {
    PlainBuilds(DOMAIN, Str(DEFAULT_SPACE));
    PlainBuilds(DOMAIN, PyNone);
  }

  lemma ModelAccepted(f: Attrs)
    ensures Accepts(WorldModel, f)
  {
  }

  lemma ModelUpgrades(rec: Recovered, f: Attrs)
    requires f.Keys == RequiredOf(WorldModel) && PartsRegistered(f)
    ensures Upgradable(WorldModel, Completed(TWorldModels, rec, f))
  {
    AddsRegistered();
    ModelAccepted(Complete(Schema(WorldModel), SPACE + f));
    AddedUpgrades(WorldModel, f, SPACE);
  }

  lemma OldEvidencePlain(subject: string, k: Field)
    requires k in OldEvidence(subject)
    requires k !in {EvidenceClassField, ProvenanceField, Reliability, ClassificationConfidenceField}
    ensures var v := OldEvidence(subject)[k]; v.Str? || v.Time?
  {
  }

  lemma OldEvidenceCompound(subject: string)
    ensures var f := OldEvidence(subject);
            && f[ProvenanceField] == Obj(Provenance, SOURCED) && f[Reliability] == Rated(EvidenceReliability)
            && f[ClassificationConfidenceField] == Rated(ClassificationConfidence)
            && f[EvidenceClassField] == Enum(EvidenceClass, NARRATIVE)
  {
  }

  lemma OldEvidencePart(subject: string, f: Attrs, k: Field)
    requires f == OldEvidence(subject) && k in f
    ensures Built(DOMAIN, f[k]) && Registered(DOMAIN, f[k])
  {
    OldEvidenceCompound(subject);
    if k == ProvenanceField {
      SourcedBuilds();
    } else if k == Reliability {
      RatedBuilds(EvidenceReliability);
    } else if k == ClassificationConfidenceField {
      RatedBuilds(ClassificationConfidence);
    } else if k == EvidenceClassField {
      ClassBuilds();
    } else {
      OldEvidencePlain(subject, k);
      PlainBuilds(DOMAIN, f[k]);
    }
  }

  lemma OldEvidenceParts(subject: string)
    ensures PartsRegistered(OldEvidence(subject))
  {
    var f := OldEvidence(subject);
    forall k | k in f ensures Built(DOMAIN, f[k]) && Registered(DOMAIN, f[k]) {
      OldEvidencePart(subject, f, k);
    }
  }

  lemma OldEvidenceKeys(subject: string)
    ensures OldEvidence(subject).Keys == RequiredOf(EvidenceRecord)
    ensures Arg(OldEvidence(subject), Content) == Str("c")
  {
  }

  lemma EvidenceAccepted(f: Attrs)
    requires Arg(f, Content) == Str("c") && Arg(f, SpaceId) == Str(DEFAULT_SPACE)
    ensures Accepts(EvidenceRecord, f)
  {
    assert |"c"| == 1 && |DEFAULT_SPACE| == 13;
  }

  lemma EvidenceUpgrades(rec: Recovered, f: Attrs)
    requires f.Keys == RequiredOf(EvidenceRecord) && PartsRegistered(f) && Arg(f, Content) == Str("c")
    ensures Upgradable(EvidenceRecord, Completed(TEvidence, rec, f))
  {
    var adds := SPACE[ActorId := PyNone];
    AddsRegistered();
    CompleteAt(Schema(EvidenceRecord), adds + f, Content);
    CompleteAt(Schema(EvidenceRecord), adds + f, SpaceId);
    EvidenceAccepted(Complete(Schema(EvidenceRecord), adds + f));
    AddedUpgrades(EvidenceRecord, f, adds);
  }

  // ----- the rows -----

  lemma RowIsLegacy(t: Table, rec: Recovered, f: Attrs)
    requires !t.TLedger? && SpaceId !in f && (OwnerRecovered(t) ==> SubjectId !in f)
    requires forall c :: c in LegacyColumns(t) ==> FieldOf(c) in f
    requires Upgradable(ClassOf(t), Completed(t, rec, f))
    ensures LegacyTable(t, rec, [RowOf(t, f)], [f])
  {
    assert CellAt(RowOf(t, f), CSpace) == PyNone;
    assert LegacyRow(t, rec, RowOf(t, f), f);
  }

  lemma ColumnsAre()
    ensures LegacyColumns(TWorldModels) == {CSubject, CVersion} && LegacyColumns(TEvidence) == {CId, CSubject}
    ensures LegacyColumns(TPredictions) == {CId}
  {
  }

  lemma RequiredColumns(t: Table, f: Attrs)
    requires (t.TWorldModels? || t.TEvidence?) && f.Keys == RequiredOf(ClassOf(t))
    ensures SpaceId !in f && forall c :: c in LegacyColumns(t) ==> FieldOf(c) in f
  {
    ColumnsAre();
  }

  lemma ModelRow(rec: Recovered, f: Attrs)
    requires f.Keys == RequiredOf(WorldModel) && PartsRegistered(f)
    ensures LegacyTable(TWorldModels, rec, [RowOf(TWorldModels, f)], [f])
  {
    RequiredColumns(TWorldModels, f);
    ModelUpgrades(rec, f);
    RowIsLegacy(TWorldModels, rec, f);
  }

  lemma EvidenceRow(rec: Recovered, f: Attrs)
    requires f.Keys == RequiredOf(EvidenceRecord) && PartsRegistered(f) && Arg(f, Content) == Str("c")
    ensures LegacyTable(TEvidence, rec, [RowOf(TEvidence, f)], [f])
  {
    RequiredColumns(TEvidence, f);
    EvidenceUpgrades(rec, f);
    RowIsLegacy(TEvidence, rec, f);
  }

  lemma PredictionRow(rec: Recovered, f: Attrs)
    requires f.Keys == RequiredOf(Prediction) - {SubjectId} && Upgradable(Prediction, Completed(TPredictions, rec, f))
    ensures LegacyTable(TPredictions, rec, [RowOf(TPredictions, f)], [f])
  {
    ColumnsAre();
    RowIsLegacy(TPredictions, rec, f);
  }

  lemma OldModelRow(rec: Recovered, subject: string, prediction: string)
    ensures LegacyTable(TWorldModels, rec, [RowOf(TWorldModels, OldModel(subject, prediction))],
                        [OldModel(subject, prediction)])
  {
    OldModelKeys(subject, prediction);
    OldModelParts(subject, prediction);
    ModelRow(rec, OldModel(subject, prediction));
  }

  lemma OldEvidenceRow(rec: Recovered, subject: string)
    ensures LegacyTable(TEvidence, rec, [RowOf(TEvidence, OldEvidence(subject))], [OldEvidence(subject)])
  {
    OldEvidenceKeys(subject);
    OldEvidenceParts(subject);
    EvidenceRow(rec, OldEvidence(subject));
  }

  lemma OldPredictionRow(rec: Recovered, id: string, hypothesis: string, likelihood: real)
    requires 0.0 <= likelihood <= 1.0
    ensures LegacyTable(TPredictions, rec, [RowOf(TPredictions, OldPrediction(id, hypothesis, likelihood))],
                        [OldPrediction(id, hypothesis, likelihood)])
  {
    OldPredictionKeys(id, hypothesis, likelihood);
    OldPredictionUpgrades(rec, id, hypothesis, likelihood);
    PredictionRow(rec, OldPrediction(id, hypothesis, likelihood));
  }

  // ----- the database -----

  /** Three tables of one row each: a model of the subject that names the prediction, evidence about somebody
      else, and the prediction. */
  function Written(subject: string, other: string, id: string, hypothesis: string, likelihood: real): Legacy {
    Legacy(map[TWorldModels := [OldModel(subject, id)], TEvidence := [OldEvidence(other)],
               TPredictions := [OldPrediction(id, hypothesis, likelihood)]], [])
  }

  function RowsOf(objs: map<Table, seq<Attrs>>): Database {
    map t | t in objs :: seq(|objs[t]|, i requires 0 <= i < |objs[t]| => RowOf(t, objs[t][i]))
  }

  function DbOf(l: Legacy): Db { Db(map t | t in l.objs :: LegacyColumns(t), RowsOf(l.objs)) }

  lemma RowsAt(l: Legacy, t: Table, f: Attrs)
    requires t in l.objs && l.objs[t] == [f]
    ensures t in DbOf(l).columns && Lookup(DbOf(l).tables, t) == [RowOf(t, f)]
    ensures DbOf(l).columns[t] == LegacyColumns(t)
  {
  }

  lemma WrittenTable(l: Legacy, rec: Recovered, t: Table, subject: string, other: string, id: string,
                     hypothesis: string, likelihood: real)
    requires l == Written(subject, other, id, hypothesis, likelihood) && 0.0 <= likelihood <= 1.0 && !t.TLedger?
    ensures LegacyTable(t, rec, Lookup(DbOf(l).tables, t), Lookup(l.objs, t))
  {
    match t
    case TWorldModels =>
      RowsAt(l, t, OldModel(subject, id));
      OldModelRow(rec, subject, id);
    case TEvidence =>
      RowsAt(l, t, OldEvidence(other));
      OldEvidenceRow(rec, other);
    case TPredictions =>
      RowsAt(l, t, OldPrediction(id, hypothesis, likelihood));
      OldPredictionRow(rec, id, hypothesis, likelihood);
    case _ =>
  }

  lemma WrittenIsLegacy(l: Legacy, subject: string, other: string, id: string, hypothesis: string, likelihood: real)
    requires l == Written(subject, other, id, hypothesis, likelihood) && 0.0 <= likelihood <= 1.0
    ensures LegacyDb(DbOf(l), l)
  {
    forall t: Table | !t.TLedger?
      ensures LegacyTable(t, RecoveredFrom(DbOf(l)), Lookup(DbOf(l).tables, t), Lookup(l.objs, t))
    {
      WrittenTable(l, RecoveredFrom(DbOf(l)), t, subject, other, id, hypothesis, likelihood);
    }
    NoLedger(l);
    TablesAreLegacy(l);
  }

  lemma NoLedger(l: Legacy)
    requires l.ledger == [] && TLedger !in l.objs
    ensures LegacyLedger(Lookup(DbOf(l).tables, TLedger), l.ledger)
    ensures forall s :: InOrder(s, Lookup(BooksOf(Entries(l.ledger)), s))
  {
  }

  /** What is left of being a legacy database once its columns are the legacy ones. */
  lemma TablesAreLegacy(l: Legacy)
    requires forall t: Table :: !t.TLedger? ==>
               LegacyTable(t, RecoveredFrom(DbOf(l)), Lookup(DbOf(l).tables, t), Lookup(l.objs, t))
    requires LegacyLedger(Lookup(DbOf(l).tables, TLedger), l.ledger)
    requires forall s :: InOrder(s, Lookup(BooksOf(Entries(l.ledger)), s))
    ensures LegacyDb(DbOf(l), l)
  {
    assert forall t: Table :: CSpace !in LegacyColumns(t);
  }

  // ----- what the scan finds in it -----

  lemma AttributeOf(t: Table, f: Attrs, k: Field)
    requires k in f
    ensures Attribute(RowOf(t, f), k) == Encode(f[k])
  {
    EncodedKey(ClassOf(t), f, KField(k));
  }

  lemma MembersOfOne(name: string)
    ensures Members(Encode(Tuple([Str(name)]))) == [name]
  {
    var items := EncodeAll([Str(name)]);
    assert items == [JStr(name)] && Strings(items[..0]) == [];
  }

  lemma OldModelNames(subject: string, prediction: string)
    ensures FirstToName([RowOf(TWorldModels, OldModel(subject, prediction))], ActivePredictionIds, prediction) ==
            Some(subject)
  {
    var f := OldModel(subject, prediction);
    AttributeOf(TWorldModels, f, SubjectId);
    AttributeOf(TWorldModels, f, ActivePredictionIds);
    MembersOfOne(prediction);
    assert FirstToName([RowOf(TWorldModels, f)][..0], ActivePredictionIds, prediction) == None;
  }

  lemma SubjectCell(f: Attrs, subject: string)
    requires SubjectId in f && f[SubjectId] == Str(subject)
    ensures CellAt(RowOf(TEvidence, f), CSubject) == Str(subject)
  {
    ColumnsAre();
    assert FieldOf(CSubject) in f;
  }

  lemma OneRowSubject(r: Row, subject: string)
    requires CellAt(r, CSubject) == Str(subject)
    ensures SoleSubject([r]) == Some(subject)
  {
    assert CellAt([r][0], CSubject) == Str(subject);
    SoleSubjectIs([r], subject);
  }

  lemma OldEvidenceSubject(subject: string)
    ensures SoleSubject([RowOf(TEvidence, OldEvidence(subject))]) == Some(subject)
  {
    SubjectCell(OldEvidence(subject), subject);
    OneRowSubject(RowOf(TEvidence, OldEvidence(subject)), subject);
  }

  /** For every id, hypothesis and likelihood, and every other subject: the prediction of the empty subject
      ends up listed as the other's, and not as its own. */
  lemma OwnPredictionIsLost(other: string, id: string, hypothesis: string, likelihood: real)
    requires other != "" && 0.0 <= likelihood <= 1.0
    ensures var l := Written("", other, id, hypothesis, likelihood);
            && LegacyDb(DbOf(l), l) && MigrateV0(DbOf(l)).Some?
            && DocumentedFor(DbOf(l), l, 0) == ""
            && UpgradedPrediction(DbOf(l), l, 0) in ListedFor(DbOf(l), l, Scope(DEFAULT_SPACE, other))
            && UpgradedPrediction(DbOf(l), l, 0) !in ListedFor(DbOf(l), l, Scope(DEFAULT_SPACE, ""))
  {
    var l := Written("", other, id, hypothesis, likelihood);
    WrittenIsLegacy(l, "", other, id, hypothesis, likelihood);
    UpgradeGoesThrough(DbOf(l), l);
    WrittenIsFound(l, "", other, id, hypothesis, likelihood);
    MisattributedPrediction(DbOf(l), l, 0, other);
  }

  lemma WrittenHas(l: Legacy, subject: string, other: string, id: string, hypothesis: string, likelihood: real)
    requires l == Written(subject, other, id, hypothesis, likelihood)
    ensures Lookup(l.objs, TPredictions) == [OldPrediction(id, hypothesis, likelihood)]
    ensures ModelsOf(DbOf(l)) == [RowOf(TWorldModels, OldModel(subject, id))]
    ensures EvidenceOf(DbOf(l)) == [RowOf(TEvidence, OldEvidence(other))]
  {
    ColumnsAre();
    RowsAt(l, TWorldModels, OldModel(subject, id));
    RowsAt(l, TEvidence, OldEvidence(other));
  }

  lemma OldPredictionId(id: string, hypothesis: string, likelihood: real)
    ensures Arg(OldPrediction(id, hypothesis, likelihood), Id) == Str(id)
  {
  }

  lemma WrittenIsFound(l: Legacy, subject: string, other: string, id: string, hypothesis: string, likelihood: real)
    requires l == Written(subject, other, id, hypothesis, likelihood)
    ensures Lookup(l.objs, TPredictions) == [OldPrediction(id, hypothesis, likelihood)]
    ensures NamedBy(DbOf(l), TPredictions, OldPrediction(id, hypothesis, likelihood)) == Some(subject)
    ensures SoleSubject(EvidenceOf(DbOf(l))) == Some(other)
  {
    WrittenHas(l, subject, other, id, hypothesis, likelihood);
    OldModelNames(subject, id);
    OldEvidenceSubject(other);
    OldPredictionId(id, hypothesis, likelihood);
  }
}
