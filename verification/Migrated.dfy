/** What a legacy database means after the migration: every row stands for the legacy object with
    only its missing ownership filled in, so the SQLite backend carries on from there exactly as
    an in-memory backend holding those objects. */
module Migrated {
  import opened Domain
  import opened Codec
  import opened Declared
  import opened Tables
  import opened Containers
  import opened Ledger
  import opened Sql
  import opened Refinement
  import opened Backends
  import opened Patching
  import opened Migration
  import opened Fixpoint

  type Attrs = map<Field, Value>

  function ClassOf(t: Table): Class {
    match t
    case TEvidence => EvidenceRecord
    case TInference => InferenceRecord
    case THypotheses => Hypothesis
    case TPredictions => Prediction
    case TInquiries => Inquiry
    case TWorldModels => WorldModel
    case TCurrentPointer => CurrentModelSnapshot
    case TLedger => RevisionLedgerEntry
    case TAnomalies => AnomalyResolution
    case TProvenance => ProvenanceRecord
    case TRecognition => RecognitionEvent
    case TDependencies => DependencyEdge
  }

  const SPACE: Attrs := map[SpaceId := Str(DEFAULT_SPACE)]

  predicate OwnerRecovered(t: Table) { t.THypotheses? || t.TPredictions? }

  /** The subject the migration settles on for a hypothesis or prediction. */
  function Owner(t: Table, rec: Recovered, f: Attrs): string {
    if t.THypotheses? then Resolve(rec.hyp, rec.fallback, Arg(f, HypothesisId))
    else Resolve(rec.pred, rec.fallback, Arg(f, Id))
  }

  /** The attributes the migration adds to an object of the table. */
  function Missing(t: Table, owner: string): Attrs {
    match t
    case TEvidence => SPACE[ActorId := PyNone]
    case THypotheses => SPACE[SubjectId := Str(owner)]
    case TPredictions => SPACE[SubjectId := Str(owner)]
    case TDependencies => map[]
    case _ => SPACE
  }

  function Completed(t: Table, rec: Recovered, f: Attrs): Attrs { Missing(t, Owner(t, rec, f)) + f }

  /** A row as the pre-isolation schema wrote it: the blob encodes an object without ownership, and
      the columns repeat its attributes. */
  ghost predicate LegacyRow(t: Table, rec: Recovered, r: Row, f: Attrs) {
    && r.json == Encode(Obj(ClassOf(t), f))
    && SpaceId !in f && CellAt(r, CSpace) == PyNone && (OwnerRecovered(t) ==> SubjectId !in f)
    && (forall c :: c in LegacyColumns(t) ==> FieldOf(c) in f && CellAt(r, c) == f[FieldOf(c)])
    && Upgradable(ClassOf(t), Completed(t, rec, f))
  }

  /** The legacy object with only its missing attributes added. */
  ghost function Object(t: Table, rec: Recovered, f: Attrs): Value
    requires Upgradable(ClassOf(t), Completed(t, rec, f))
  {
    Upgraded(ClassOf(t), Completed(t, rec, f))
  }

  lemma MissingEncodes(t: Table, owner: string)
    ensures EncodeAdds(Missing(TEvidence, owner)) == EVIDENCE_ADDS
    ensures OwnerRecovered(t) ==> EncodeAdds(Missing(t, owner)) == OwnerAdds(owner)
    ensures EncodeAdds(SPACE) == SPACE_ONLY
  {
  }

  /** The blob of a migrated row decodes to the object. */
  lemma BlobMigrated(c: Class, f: Attrs, adds: Attrs)
    requires Upgradable(c, adds + f)
    ensures PatchFields(Encode(Obj(c, f)), EncodeAdds(adds)).Some?
    ensures Load(PatchFields(Encode(Obj(c, f)), EncodeAdds(adds)).value) == Some(Upgraded(c, adds + f))
    ensures Loads(Upgraded(c, adds + f))
  {
    PatchDecodes(c, f, adds);
    DomainIsCoherent();
    DecodeBuilds(DOMAIN, PatchFields(Encode(Obj(c, f)), EncodeAdds(adds)).value);
  }

  lemma UntouchedBlob(c: Class, f: Attrs)
    requires Upgradable(c, f)
    ensures Load(Encode(Obj(c, f))) == Some(Upgraded(c, f)) && Loads(Upgraded(c, f))
  {
    EncodedUpgrade(c, f);
    DomainIsCoherent();
    DecodeBuilds(DOMAIN, Encode(Obj(c, f)));
  }

  /** The owner as the row's own id column resolves it. */
  function RowOwner(t: Table, rec: Recovered, r: Row): string {
    if t.THypotheses? then Resolve(rec.hyp, rec.fallback, CellAt(r, CHypothesisId))
    else Resolve(rec.pred, rec.fallback, CellAt(r, CId))
  }

  function BlobAdds(t: Table, owner: string): map<Field, Json> {
    if t.TEvidence? then EVIDENCE_ADDS else if OwnerRecovered(t) then OwnerAdds(owner) else SPACE_ONLY
  }

  lemma MigratedJson(t: Table, rec: Recovered, r: Row)
    requires !t.TLedger? && !t.TDependencies?
    ensures var p := PatchFields(r.json, BlobAdds(t, RowOwner(t, rec, r)));
            MigrateRow(t, rec, r).Some? == p.Some? && (p.Some? ==> MigrateRow(t, rec, r).value.json == p.value)
  {
    if OwnerRecovered(t) {
      OwnedJson(t, rec, r);
    } else {
      UnownedStep(t, rec, r);
      PatchedBlob(r, CellsAfter(t, r), PatchFields(r.json, BlobAdds(t, "")));
    }
  }

  /** The cells of a migrated row that has no owner to recover. */
  function CellsAfter(t: Table, r: Row): map<Column, Value> {
    match t
    case TAnomalies => r.cells
    case TProvenance => r.cells
    case TWorldModels =>
      map[CSpace := Str(DEFAULT_SPACE), CSubject := CellAt(r, CSubject), CVersion := CellAt(r, CVersion)]
    case TCurrentPointer => map[CSpace := Str(DEFAULT_SPACE), CSubject := CellAt(r, CSubject)]
    case _ => Spaced(r)
  }

  lemma UnownedStep(t: Table, rec: Recovered, r: Row)
    requires !t.TLedger? && !t.TDependencies? && !OwnerRecovered(t)
    ensures MigrateRow(t, rec, r) == Patched(r, CellsAfter(t, r), PatchFields(r.json, BlobAdds(t, "")))
    ensures BlobAdds(t, "") == BlobAdds(t, RowOwner(t, rec, r))
  {
    match t
    case TEvidence =>
    case TInference =>
    case TInquiries =>
    case TRecognition =>
    case TAnomalies =>
    case TProvenance =>
    case TWorldModels =>
    case TCurrentPointer =>
  }

  lemma OwnedJson(t: Table, rec: Recovered, r: Row)
    requires OwnerRecovered(t)
    ensures var p := PatchFields(r.json, BlobAdds(t, RowOwner(t, rec, r)));
            MigrateRow(t, rec, r).Some? == p.Some? && (p.Some? ==> MigrateRow(t, rec, r).value.json == p.value)
  {
  }

  lemma OwnersMatch(t: Table, rec: Recovered, r: Row, f: Attrs)
    requires OwnerRecovered(t)
    requires forall c :: c in LegacyColumns(t) ==> FieldOf(c) in f && CellAt(r, c) == f[FieldOf(c)]
    ensures RowOwner(t, rec, r) == Owner(t, rec, f)
  {
    if t.THypotheses? {
      assert CHypothesisId in LegacyColumns(t);
    } else {
      assert CId in LegacyColumns(t);
    }
  }

  lemma MissingIsAdded(t: Table, rec: Recovered, r: Row, f: Attrs)
    requires !t.TLedger? && !t.TDependencies?
    requires OwnerRecovered(t) ==> RowOwner(t, rec, r) == Owner(t, rec, f)
    ensures EncodeAdds(Missing(t, Owner(t, rec, f))) == BlobAdds(t, RowOwner(t, rec, r))
  {
    MissingEncodes(t, Owner(t, rec, f));
  }

  lemma RowBlob(t: Table, rec: Recovered, r: Row, f: Attrs)
    requires !t.TLedger? && LegacyRow(t, rec, r, f)
    ensures MigrateRow(t, rec, r).Some?
    ensures Load(MigrateRow(t, rec, r).value.json) == Some(Object(t, rec, f)) && Loads(Object(t, rec, f))
  {
    if t.TDependencies? {
      EdgeBlob(t, rec, r, f);
    } else {
      PatchedRowBlob(t, rec, r, f);
    }
  }

  lemma EdgeBlob(t: Table, rec: Recovered, r: Row, f: Attrs)
    requires t.TDependencies? && LegacyRow(t, rec, r, f)
    ensures MigrateRow(t, rec, r).Some?
    ensures Load(MigrateRow(t, rec, r).value.json) == Some(Object(t, rec, f)) && Loads(Object(t, rec, f))
  {
    assert Completed(t, rec, f) == f;
    UntouchedBlob(ClassOf(t), f);
  }

  lemma PatchedRowBlob(t: Table, rec: Recovered, r: Row, f: Attrs)
    requires !t.TLedger? && !t.TDependencies? && LegacyRow(t, rec, r, f)
    ensures MigrateRow(t, rec, r).Some?
    ensures Load(MigrateRow(t, rec, r).value.json) == Some(Object(t, rec, f)) && Loads(Object(t, rec, f))
  {
    if OwnerRecovered(t) {
      OwnersMatch(t, rec, r, f);
    }
    MissingIsAdded(t, rec, r, f);
    MigratedJson(t, rec, r);
    BlobMigrated(ClassOf(t), f, Missing(t, Owner(t, rec, f)));
  }

  lemma SpaceCell(t: Table, rec: Recovered, r: Row)
    requires MigrateRow(t, rec, r).Some? && CSpace in ColumnsOf(t) && CellAt(r, CSpace) == PyNone
    ensures CellAt(MigrateRow(t, rec, r).value, CSpace) == Str(DEFAULT_SPACE)
  {
  }

  lemma OwnerCell(t: Table, rec: Recovered, r: Row)
    requires OwnerRecovered(t) && MigrateRow(t, rec, r).Some?
    ensures CellAt(MigrateRow(t, rec, r).value, CSubject) == Str(RowOwner(t, rec, r))
  {
  }

  lemma MissingAt(t: Table, owner: string)
    ensures CSpace in ColumnsOf(t) && !t.TLedger? ==>
              SpaceId in Missing(t, owner) && Missing(t, owner)[SpaceId] == Str(DEFAULT_SPACE)
    ensures OwnerRecovered(t) ==> SubjectId in Missing(t, owner) && Missing(t, owner)[SubjectId] == Str(owner)
  {
  }

  lemma CompletedAt(t: Table, rec: Recovered, f: Attrs, k: Field)
    requires Upgradable(ClassOf(t), Completed(t, rec, f))
    ensures k in f ==> Get(Object(t, rec, f), k) == f[k]
    ensures k !in f && k in Missing(t, Owner(t, rec, f)) ==>
              Get(Object(t, rec, f), k) == Missing(t, Owner(t, rec, f))[k]
  {
    UpgradedKeeps(ClassOf(t), Completed(t, rec, f), k);
  }

  lemma LegacyCell(t: Table, rec: Recovered, r: Row, c: Column)
    requires MigrateRow(t, rec, r).Some? && c in LegacyColumns(t)
    ensures CellAt(MigrateRow(t, rec, r).value, c) == CellAt(r, c)
  {
    MigratedRowKept(t, rec, r);
  }

  lemma NewColumns(t: Table, c: Column)
    requires c in ColumnsOf(t) && c !in LegacyColumns(t)
    ensures c == CSpace || (c == CSubject && OwnerRecovered(t))
  {
  }

  lemma KeptCell(t: Table, rec: Recovered, r: Row, f: Attrs, c: Column)
    requires LegacyRow(t, rec, r, f) && MigrateRow(t, rec, r).Some? && c in LegacyColumns(t)
    ensures CellAt(MigrateRow(t, rec, r).value, c) == Get(Object(t, rec, f), FieldOf(c))
  {
    CompletedAt(t, rec, f, FieldOf(c));
    LegacyCell(t, rec, r, c);
  }

  /** What the missing attribute under a new column is. */
  lemma MissingColumn(t: Table, owner: string, c: Column)
    requires !t.TLedger? && c in ColumnsOf(t) && c !in LegacyColumns(t)
    ensures FieldOf(c) in Missing(t, owner)
    ensures Missing(t, owner)[FieldOf(c)] == Str(if c == CSpace then DEFAULT_SPACE else owner)
  {
    MissingAt(t, owner);
  }

  lemma NewCell(t: Table, rec: Recovered, r: Row, c: Column)
    requires MigrateRow(t, rec, r).Some? && CellAt(r, CSpace) == PyNone
    requires c in ColumnsOf(t) && c !in LegacyColumns(t)
    ensures OwnerRecovered(t) || c == CSpace
    ensures CellAt(MigrateRow(t, rec, r).value, c) == Str(if c == CSpace then DEFAULT_SPACE else RowOwner(t, rec, r))
  {
    if c == CSpace {
      SpaceCell(t, rec, r);
    } else {
      OwnerCell(t, rec, r);
    }
  }

  lemma AddedCell(t: Table, rec: Recovered, r: Row, f: Attrs, c: Column)
    requires !t.TLedger? && LegacyRow(t, rec, r, f) && MigrateRow(t, rec, r).Some?
    requires c in ColumnsOf(t) && c !in LegacyColumns(t) && FieldOf(c) !in f
    ensures CellAt(MigrateRow(t, rec, r).value, c) == Get(Object(t, rec, f), FieldOf(c))
  {
    CompletedAt(t, rec, f, FieldOf(c));
    MissingColumn(t, Owner(t, rec, f), c);
    NewCell(t, rec, r, c);
    if OwnerRecovered(t) {
      OwnersMatch(t, rec, r, f);
    }
  }

  lemma NewFields(t: Table, f: Attrs, c: Column)
    requires SpaceId !in f && (OwnerRecovered(t) ==> SubjectId !in f)
    requires c in ColumnsOf(t) && c !in LegacyColumns(t)
    ensures FieldOf(c) !in f
  {
    NewColumns(t, c);
  }

  lemma RowCell(t: Table, rec: Recovered, r: Row, f: Attrs, c: Column)
    requires !t.TLedger? && LegacyRow(t, rec, r, f) && MigrateRow(t, rec, r).Some? && c in ColumnsOf(t)
    ensures CellAt(MigrateRow(t, rec, r).value, c) == Get(Object(t, rec, f), FieldOf(c))
  {
    if c in LegacyColumns(t) {
      KeptCell(t, rec, r, f, c);
    } else {
      NewFields(t, f, c);
      AddedCell(t, rec, r, f, c);
    }
  }

  /** A migrated row stands for the legacy object with its ownership added: columns agree with
      blob attributes, and the blob decodes to it. */
  lemma MigratedRowIs(t: Table, rec: Recovered, r: Row, f: Attrs)
    requires !t.TLedger? && LegacyRow(t, rec, r, f)
    ensures MigrateRow(t, rec, r).Some?
    ensures RowIs(ColumnsOf(t), MigrateRow(t, rec, r).value, Object(t, rec, f)) && Loads(Object(t, rec, f))
  {
    RowBlob(t, rec, r, f);
    forall c | c in ColumnsOf(t)
      ensures CellAt(MigrateRow(t, rec, r).value, c) == Get(Object(t, rec, f), FieldOf(c))
    {
      RowCell(t, rec, r, f, c);
    }
  }

  ghost predicate LegacyTable(t: Table, rec: Recovered, rows: seq<Row>, fs: seq<Attrs>) {
    && |rows| == |fs| && (forall i :: 0 <= i < |fs| ==> LegacyRow(t, rec, rows[i], fs[i]))
    && (Rebuilt(t) ==> DistinctBy(LegacyColumns(t), rows))
  }

  ghost function Objects(t: Table, rec: Recovered, fs: seq<Attrs>): seq<Value>
    requires forall i :: 0 <= i < |fs| ==> Upgradable(ClassOf(t), Completed(t, rec, fs[i]))
  {
    seq(|fs|, i requires 0 <= i < |fs| => Object(t, rec, fs[i]))
  }

  /** Distinct legacy keys stay distinct once the space is added in front. */
  lemma KeysStayDistinct(t: Table, rows: seq<Row>, after: seq<Row>)
    requires Rebuilt(t) && DistinctBy(LegacyColumns(t), rows) && |after| == |rows|
    requires forall i :: 0 <= i < |rows| ==> RowKept(t, rows[i], after[i])
    ensures DistinctBy(RebuiltKey(t), after)
  {
    forall i, j | 0 <= i < j < |after| ensures !Clash(RebuiltKey(t), after[i], after[j]) {
      assert !Clash(LegacyColumns(t), rows[i], rows[j]);
      var c :| c in LegacyColumns(t) && !(CellAt(rows[i], c) == CellAt(rows[j], c) && CellAt(rows[i], c) != PyNone);
      assert c in RebuiltKey(t) && CellAt(after[i], c) == CellAt(rows[i], c)
             && CellAt(after[j], c) == CellAt(rows[j], c);
    }
  }

  /** A step that maps every row, and keeps rebuilt keys distinct, goes through. */
  lemma TableGoesThrough(t: Table, cols: set<Column>, rec: Recovered, rows: seq<Row>)
    requires forall i :: 0 <= i < |rows| ==> MigrateRow(t, rec, rows[i]).Some?
    requires Rebuilt(t) ==> DistinctBy(LegacyColumns(t), rows)
    ensures RowsAfter(t, cols, rec, rows).Some?
  {
    assert forall i :: 0 <= i < |rows| ==> RowStep(t, rec)(rows[i]) == MigrateRow(t, rec, rows[i]);
    var mapped := MapRows(RowStep(t, rec), rows);
    if Rebuilt(t) {
      forall i | 0 <= i < |rows| ensures RowKept(t, rows[i], mapped.value[i]) {
        MigratedRowKept(t, rec, rows[i]);
      }
      KeysStayDistinct(t, rows, mapped.value);
      InsertAllIsCopy(RebuiltKey(t), mapped.value);
    }
  }

  /** A legacy table migrates without raising, and then row i stands for object i. */
  lemma TableMigrated(t: Table, cols: set<Column>, rec: Recovered, rows: seq<Row>, fs: seq<Attrs>)
    requires !t.TLedger? && LegacyTable(t, rec, rows, fs) && (Untouched(t, cols) ==> t.TDependencies?)
    ensures RowsAfter(t, cols, rec, rows).Some?
    ensures RowsAre(ColumnsOf(t), RowsAfter(t, cols, rec, rows).value, Objects(t, rec, fs))
    ensures AllLoad(Objects(t, rec, fs))
  {
    forall i | 0 <= i < |fs|
      ensures MigrateRow(t, rec, rows[i]).Some?
      ensures RowIs(ColumnsOf(t), MigrateRow(t, rec, rows[i]).value, Objects(t, rec, fs)[i])
      ensures Loads(Objects(t, rec, fs)[i])
    {
      MigratedRowIs(t, rec, rows[i], fs[i]);
    }
    TableGoesThrough(t, cols, rec, rows);
    if !Untouched(t, cols) {
      RowAt(t, cols, rec, rows);
    }
  }

  // ----- when the migration raises -----

  /** A blob the patch helpers can read: an object whose "fields", if there are any, are an object. */
  predicate IsRecord(j: Json) { j.JObj? && (KFields in j.m ==> j.m[KFields].JObj?) }

  /** The same for an event nested in a ledger blob, where there is one. */
  predicate IsLedgerRecord(j: Json) {
    IsRecord(j) && (HoldsEvent(j) ==> IsRecord(EventBlob(j)))
  }

  predicate Patchable(t: Table, j: Json) { if t.TLedger? then IsLedgerRecord(j) else IsRecord(j) }

  lemma PatchesExactly(j: Json, adds: map<Field, Json>)
    ensures PatchFields(j, adds).Some? <==> IsRecord(j)
    ensures FieldsOf(j).Some? <==> IsRecord(j)
  {
  }

  lemma PatchesLedgerExactly(j: Json)
    ensures PatchLedger(j).Some? <==> IsLedgerRecord(j)
  {
    if HoldsEvent(j) {
      PatchesExactly(EventBlob(j), SPACE_ONLY);
    }
  }

  lemma RowMigratesExactly(t: Table, rec: Recovered, r: Row)
    requires !t.TDependencies?
    ensures MigrateRow(t, rec, r).Some? <==> Patchable(t, r.json)
  {
    if t.TLedger? {
      PatchesLedgerExactly(r.json);
    } else {
      MigratedJson(t, rec, r);
      PatchesExactly(r.json, BlobAdds(t, RowOwner(t, rec, r)));
    }
  }

  lemma RebuiltCells(t: Table, rec: Recovered, r: Row)
    requires Rebuilt(t) && MigrateRow(t, rec, r).Some?
    ensures CellAt(MigrateRow(t, rec, r).value, CSpace) == Str(DEFAULT_SPACE)
    ensures RebuiltKey(t) == LegacyColumns(t) + {CSpace}
  {
  }

  lemma ClashesExactly(t: Table, rec: Recovered, a: Row, b: Row)
    requires Rebuilt(t) && MigrateRow(t, rec, a).Some? && MigrateRow(t, rec, b).Some?
    ensures Clash(RebuiltKey(t), MigrateRow(t, rec, a).value, MigrateRow(t, rec, b).value) <==>
            Clash(LegacyColumns(t), a, b)
  {
    MigratedRowKept(t, rec, a);
    MigratedRowKept(t, rec, b);
    RebuiltCells(t, rec, a);
    RebuiltCells(t, rec, b);
  }

  lemma DistinctExactly(t: Table, rec: Recovered, rows: seq<Row>, after: seq<Row>)
    requires Rebuilt(t) && |after| == |rows|
    requires forall i :: 0 <= i < |rows| ==> MigrateRow(t, rec, rows[i]) == Some(after[i])
    ensures DistinctBy(RebuiltKey(t), after) <==> DistinctBy(LegacyColumns(t), rows)
  {
    forall i, j | 0 <= i < j < |rows|
      ensures Clash(RebuiltKey(t), after[i], after[j]) <==> Clash(LegacyColumns(t), rows[i], rows[j])
    {
      ClashesExactly(t, rec, rows[i], rows[j]);
    }
  }

  lemma TableRaisesExactly(t: Table, cols: set<Column>, rec: Recovered, rows: seq<Row>)
    requires !Untouched(t, cols)
    ensures RowsAfter(t, cols, rec, rows).Some? <==>
              (forall i :: 0 <= i < |rows| ==> Patchable(t, rows[i].json))
              && (Rebuilt(t) ==> DistinctBy(LegacyColumns(t), rows))
  {
    forall i | 0 <= i < |rows| ensures RowStep(t, rec)(rows[i]).Some? <==> Patchable(t, rows[i].json) {
      RowMigratesExactly(t, rec, rows[i]);
    }
    var mapped := MapRows(RowStep(t, rec), rows);
    if Rebuilt(t) && mapped.Some? {
      assert forall i :: 0 <= i < |rows| ==> RowStep(t, rec)(rows[i]) == MigrateRow(t, rec, rows[i]);
      DistinctExactly(t, rec, rows, mapped.value);
      InsertAllIsCopy(RebuiltKey(t), mapped.value);
    }
  }

  /** What a table has to be for its step to go through. */
  predicate Migratable(t: Table, cols: set<Column>, rows: seq<Row>) {
    t.TDependencies? || ((t.TWorldModels? || t.TCurrentPointer? || t.TLedger?) && CSpace in cols) ||
    (&& (forall i :: 0 <= i < |rows| ==> Patchable(t, rows[i].json))
     && (t.TWorldModels? || t.TCurrentPointer? || t.TLedger? ==> DistinctBy(LegacyColumns(t), rows)))
  }

  /** The migration raises exactly when some blob it reads or patches is not of the shape of a record, or two rows
      of a table it rebuilds share a key. */
  lemma MigratesExactly(d: Db)
    ensures MigrateV0(d).Some? <==>
              && (TWorldModels in d.columns ==>
                    forall i :: 0 <= i < |Lookup(d.tables, TWorldModels)| ==>
                      IsRecord(Lookup(d.tables, TWorldModels)[i].json))
              && forall t :: t in d.columns ==> Migratable(t, d.columns[t], Lookup(d.tables, t))
  {
    var rec, models := Recover(d.columns, d.tables), Lookup(d.tables, TWorldModels);
    forall i | 0 <= i < |models| ensures FieldsOf(models[i].json).Some? <==> IsRecord(models[i].json) {
      PatchesExactly(models[i].json, SPACE_ONLY);
    }
    forall t | t in d.columns ensures Steps(d, t).Some? <==> Migratable(t, d.columns[t], Lookup(d.tables, t)) {
      if !Untouched(t, d.columns[t]) {
        TableRaisesExactly(t, d.columns[t], rec, Lookup(d.tables, t));
      }
    }
  }

  // ----- the ledger -----

  /** A ledger row of the pre-isolation schema: the nested event has no space yet. */
  datatype LegacyEntry = LegacyEntry(entry: Attrs, event: Attrs)

  function Entry(e: LegacyEntry): Attrs {
    e.entry[RevisionEventField := Obj(RevisionEvent, SPACE + e.event)]
  }

  ghost predicate LegacyLedgerRow(r: Row, e: LegacyEntry) {
    && RevisionEventField in e.entry && e.entry[RevisionEventField] == Obj(RevisionEvent, e.event)
    && r.json == Encode(Obj(RevisionLedgerEntry, e.entry))
    && SpaceId !in e.event && SubjectId in e.event
    && CellAt(r, CSubject) == e.event[SubjectId] && e.event[SubjectId].Str?
    && SequenceNo in e.entry && CellAt(r, CSeq) == e.entry[SequenceNo]
    && Upgradable(RevisionLedgerEntry, Entry(e))
  }

  ghost function EntryObject(e: LegacyEntry): Value
    requires Upgradable(RevisionLedgerEntry, Entry(e))
  {
    Upgraded(RevisionLedgerEntry, Entry(e))
  }

  lemma EntryBlob(r: Row, e: LegacyEntry)
    requires LegacyLedgerRow(r, e)
    ensures PatchLedger(r.json).Some?
    ensures Load(PatchLedger(r.json).value) == Some(EntryObject(e)) && Loads(EntryObject(e))
  {
    LedgerPatchDecodes(e.entry, e.event);
    DomainIsCoherent();
    DecodeBuilds(DOMAIN, PatchLedger(r.json).value);
  }

  lemma EntryFields(e: LegacyEntry)
    requires Upgradable(RevisionLedgerEntry, Entry(e)) && SequenceNo in e.entry
    ensures EventOf(EntryObject(e)) == Obj(RevisionEvent, SPACE + e.event)
    ensures Get(EntryObject(e), SequenceNo) == e.entry[SequenceNo]
  {
    UpgradedKeeps(RevisionLedgerEntry, Entry(e), RevisionEventField);
    UpgradedKeeps(RevisionLedgerEntry, Entry(e), SequenceNo);
  }

  lemma EventScope(e: LegacyEntry)
    requires SpaceId !in e.event && SubjectId in e.event
    ensures var event := Obj(RevisionEvent, SPACE + e.event);
            Get(event, SpaceId) == Str(DEFAULT_SPACE) && Get(event, SubjectId) == e.event[SubjectId]
  {
  }

  lemma LedgerCells(rec: Recovered, r: Row)
    requires PatchLedger(r.json).Some?
    ensures MigrateRow(TLedger, rec, r).Some?
    ensures var r' := MigrateRow(TLedger, rec, r).value;
            && r'.json == PatchLedger(r.json).value
            && CellAt(r', CSpace) == Str(DEFAULT_SPACE)
            && CellAt(r', CSubject) == CellAt(r, CSubject) && CellAt(r', CSeq) == CellAt(r, CSeq)
  {
  }

  ghost predicate LedgerRowIs(r: Row, v: Value) {
    && EntryIs(r, v) && HasScope(EventOf(v))
    && CellAt(r, CSpace) == Get(EventOf(v), SpaceId) && CellAt(r, CSubject) == Get(EventOf(v), SubjectId)
  }

  /** A migrated ledger row is filed under the scope of the event its blob now holds. */
  lemma MigratedEntryIs(rec: Recovered, r: Row, e: LegacyEntry)
    requires LegacyLedgerRow(r, e)
    ensures MigrateRow(TLedger, rec, r).Some?
    ensures LedgerRowIs(MigrateRow(TLedger, rec, r).value, EntryObject(e)) && Loads(EntryObject(e))
  {
    EntryBlob(r, e);
    EntryFields(e);
    EventScope(e);
    LedgerCells(rec, r);
  }

  /** The ledger a sequence of entries spells out, per scope. */
  function BooksOf(entries: seq<Value>): Books {
    if entries == [] then map[] else
    var books, last := BooksOf(entries[..|entries| - 1]), entries[|entries| - 1];
    if HasScope(EventOf(last)) then
      var s := ScopeOf(EventOf(last));
      books[s := Lookup(books, s) + [last]]
    else books
  }

  lemma LedgerRowMatches(r: Row, v: Value, s: Scope)
    requires LedgerRowIs(r, v)
    ensures RowMatches(r, ScopeCond(s)) <==> ScopeOf(EventOf(v)) == s
  {
  }

  lemma BooksNext(entries: seq<Value>, s: Scope)
    requires entries != [] && HasScope(EventOf(entries[|entries| - 1]))
    ensures var n := |entries| - 1;
            Lookup(BooksOf(entries), s) ==
            Lookup(BooksOf(entries[..n]), s) + if ScopeOf(EventOf(entries[n])) == s then [entries[n]] else []
  {
  }

  /** The rows of a scope are its entries. */
  lemma {:induction false} BooksAre(rows: seq<Row>, entries: seq<Value>, s: Scope)
    requires |rows| == |entries| && forall i :: 0 <= i < |rows| ==> LedgerRowIs(rows[i], entries[i])
    ensures EntriesAre(SelectRows(rows, ScopeCond(s)), Lookup(BooksOf(entries), s))
    decreases |rows|
  {
    if rows != [] {
      var n := |rows| - 1;
      assert LedgerRowIs(rows[n], entries[n]);
      BooksAre(rows[..n], entries[..n], s);
      LedgerRowMatches(rows[n], entries[n], s);
      BooksNext(entries, s);
      if ScopeOf(EventOf(entries[n])) == s {
        AppendEntriesAre(SelectRows(rows[..n], ScopeCond(s)), Lookup(BooksOf(entries[..n]), s), rows[n], entries[n]);
      }
    }
  }

  lemma {:induction false} BooksFrom(entries: seq<Value>, s: Scope)
    requires forall i :: 0 <= i < |entries| ==> HasScope(EventOf(entries[i]))
    ensures forall x :: x in Lookup(BooksOf(entries), s) ==> x in entries
    decreases |entries|
  {
    if entries != [] {
      BooksFrom(entries[..|entries| - 1], s);
      BooksNext(entries, s);
      assert entries == entries[..|entries| - 1] + [entries[|entries| - 1]];
    }
  }

  ghost predicate LegacyLedger(rows: seq<Row>, es: seq<LegacyEntry>) {
    && |rows| == |es| && DistinctBy(LegacyColumns(TLedger), rows)
    && (forall i :: 0 <= i < |es| ==> LegacyLedgerRow(rows[i], es[i]))
  }

  ghost function Entries(es: seq<LegacyEntry>): seq<Value>
    requires forall i :: 0 <= i < |es| ==> Upgradable(RevisionLedgerEntry, Entry(es[i]))
  {
    seq(|es|, i requires 0 <= i < |es| => EntryObject(es[i]))
  }

  lemma LedgerRowsMigrated(rec: Recovered, rows: seq<Row>, es: seq<LegacyEntry>)
    requires LegacyLedger(rows, es)
    ensures forall i :: 0 <= i < |rows| ==> MigrateRow(TLedger, rec, rows[i]).Some?
    ensures forall i :: 0 <= i < |rows| ==> LedgerRowIs(MigrateRow(TLedger, rec, rows[i]).value, Entries(es)[i])
    ensures AllLoad(Entries(es))
  {
    forall i | 0 <= i < |es|
      ensures MigrateRow(TLedger, rec, rows[i]).Some?
      ensures LedgerRowIs(MigrateRow(TLedger, rec, rows[i]).value, Entries(es)[i]) && Loads(Entries(es)[i])
    {
      MigratedEntryIs(rec, rows[i], es[i]);
    }
  }

  /** A legacy ledger migrates without raising, and then each scope's rows are its entries. */
  lemma LedgerMigrated(cols: set<Column>, rec: Recovered, rows: seq<Row>, es: seq<LegacyEntry>, s: Scope)
    requires LegacyLedger(rows, es) && CSpace !in cols
    requires InOrder(s, Lookup(BooksOf(Entries(es)), s))
    ensures RowsAfter(TLedger, cols, rec, rows).Some?
    ensures LedgerSim(BooksOf(Entries(es)), RowsAfter(TLedger, cols, rec, rows).value, s)
  {
    LedgerRowsMigrated(rec, rows, es);
    TableGoesThrough(TLedger, cols, rec, rows);
    RowAt(TLedger, cols, rec, rows);
    BooksSim(RowsAfter(TLedger, cols, rec, rows).value, Entries(es), s);
  }

  lemma BooksSim(rows: seq<Row>, entries: seq<Value>, s: Scope)
    requires |rows| == |entries| && forall i :: 0 <= i < |rows| ==> LedgerRowIs(rows[i], entries[i])
    requires InOrder(s, Lookup(BooksOf(entries), s)) && AllLoad(entries)
    ensures LedgerSim(BooksOf(entries), rows, s)
  {
    BooksAre(rows, entries, s);
    BooksFrom(entries, s);
    forall x | x in entries ensures Loads(x) {
      var i :| 0 <= i < |entries| && entries[i] == x;
    }
  }

  // ----- there are such objects -----

  /** A prediction as the pre-isolation schema wrote it: no subject, no space. */
  function OldPrediction(id: string, hypothesis: string, likelihood: real): Attrs {
    map[Id := Str(id),
        Trajectory := Obj(FutureTrajectory,
            map[Kind := Enum(TrajectoryKind, RECURRING_CYCLE), Description := Str("d")]),
        Likelihood := Obj(PredictionLikelihood, map[Magnitude := Float(likelihood)]),
        DerivedFromHypothesisIds := Tuple([Str(hypothesis)]), DerivedFromEvidenceIds := Tuple([]),
        ModelVersionId := Str("v1"), CreatedAt := Time("2024-01-01T00:00:00")]
  }

  lemma OldPredictionBuilds(id: string, hypothesis: string, likelihood: real, k: Field)
    requires 0.0 <= likelihood <= 1.0 && k in OldPrediction(id, hypothesis, likelihood)
    ensures var v := OldPrediction(id, hypothesis, likelihood)[k]; Built(DOMAIN, v) && Registered(DOMAIN, v)
  {
    if k == Trajectory {
      TrajectoryBuilds();
    } else if k == Likelihood {
      LikelihoodBuilds(likelihood);
    }
  }

  lemma TrajectoryBuilds()
    ensures var v := Obj(FutureTrajectory, map[Kind := Enum(TrajectoryKind, RECURRING_CYCLE), Description := Str("d")]);
            Built(DOMAIN, v) && Registered(DOMAIN, v)
  {
    var f := map[Kind := Enum(TrajectoryKind, RECURRING_CYCLE), Description := Str("d")];
    assert Arg(f, Description) == Str("d") && |"d"| == 1;
    ObjectIsBuilt(DOMAIN, FutureTrajectory, f);
  }

  lemma LikelihoodBuilds(likelihood: real)
    requires 0.0 <= likelihood <= 1.0
    ensures var v := Obj(PredictionLikelihood, map[Magnitude := Float(likelihood)]);
            Built(DOMAIN, v) && Registered(DOMAIN, v)
  {
    ObjectIsBuilt(DOMAIN, PredictionLikelihood, map[Magnitude := Float(likelihood)]);
  }

  lemma OldPredictionKeys(id: string, hypothesis: string, likelihood: real)
    ensures OldPrediction(id, hypothesis, likelihood).Keys == RequiredOf(Prediction) - {SubjectId}
  {
  }

  lemma OldPredictionAccepted(owner: string, id: string, hypothesis: string, likelihood: real)
    ensures var f := Missing(TPredictions, owner) + OldPrediction(id, hypothesis, likelihood);
            Accepts(Prediction, Complete(Schema(Prediction), f))
  {
    var f := Missing(TPredictions, owner) + OldPrediction(id, hypothesis, likelihood);
    OldPredictionKeys(id, hypothesis, likelihood);
    var full := Complete(Schema(Prediction), f);
    assert DerivedFromHypothesisIds in full && Arg(full, DerivedFromHypothesisIds) == Tuple([Str(hypothesis)]);
    assert SpaceId in full && Arg(full, SpaceId) == Str(DEFAULT_SPACE);
    assert |DEFAULT_SPACE| == 13;
  }

  lemma OldPredictionCompletes(rec: Recovered, id: string, hypothesis: string, likelihood: real)
    requires 0.0 <= likelihood <= 1.0
    ensures var f := Completed(TPredictions, rec, OldPrediction(id, hypothesis, likelihood));
            forall k :: k in f ==> Built(DOMAIN, f[k]) && Registered(DOMAIN, f[k])
  {
    var before := OldPrediction(id, hypothesis, likelihood);
    var f := Completed(TPredictions, rec, before);
    forall k | k in f ensures Built(DOMAIN, f[k]) && Registered(DOMAIN, f[k]) {
      if k in before {
        OldPredictionBuilds(id, hypothesis, likelihood, k);
      }
    }
  }

  /** For every id, hypothesis and likelihood in range, such a prediction is one the migration completes. */
  lemma OldPredictionUpgrades(rec: Recovered, id: string, hypothesis: string, likelihood: real)
    requires 0.0 <= likelihood <= 1.0
    ensures Upgradable(Prediction, Completed(TPredictions, rec, OldPrediction(id, hypothesis, likelihood)))
  {
    var f := OldPrediction(id, hypothesis, likelihood);
    OldPredictionKeys(id, hypothesis, likelihood);
    OldPredictionAccepted(Owner(TPredictions, rec, f), id, hypothesis, likelihood);
    OldPredictionCompletes(rec, id, hypothesis, likelihood);
  }
}
