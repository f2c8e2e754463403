/** The migration step applied to its own output changes nothing: recovered owners, fallback,
    columns and patched blobs are all fixpoints. */
module Fixpoint {
  import opened Domain
  import opened Tables
  import opened Containers
  import opened Sql
  import opened Patching
  import opened Migration

  /** Every touched row of the result is the migration of the row at the same place. */
  lemma RowAt(t: Table, cols: set<Column>, rec: Recovered, rows: seq<Row>)
    requires RowsAfter(t, cols, rec, rows).Some? && !Untouched(t, cols)
    ensures var after := RowsAfter(t, cols, rec, rows).value;
            && |after| == |rows| && (Rebuilt(t) ==> DistinctBy(RebuiltKey(t), after))
            && forall i :: 0 <= i < |rows| ==> MigrateRow(t, rec, rows[i]) == Some(after[i])
  {
    var mapped := MapRows(RowStep(t, rec), rows);
    assert forall i :: 0 <= i < |rows| ==> RowStep(t, rec)(rows[i]) == MigrateRow(t, rec, rows[i]);
    if Rebuilt(t) {
      InsertAllIsCopy(RebuiltKey(t), mapped.value);
    }
  }

  lemma ModelBlob(rec: Recovered, r: Row)
    requires MigrateRow(TWorldModels, rec, r).Some?
    ensures PatchFields(r.json, SPACE_ONLY) == Some(MigrateRow(TWorldModels, rec, r).value.json)
  {
    var cells := map[CSpace := Str(DEFAULT_SPACE), CSubject := CellAt(r, CSubject), CVersion := CellAt(r, CVersion)];
    PatchedBlob(r, cells, PatchFields(r.json, SPACE_ONLY));
  }

  lemma PatchKeeps(r: Row, r': Row, f: Field)
    requires PatchFields(r.json, SPACE_ONLY) == Some(r'.json) && f != SpaceId
    ensures Attribute(r', f) == Attribute(r, f) && FieldsOf(r'.json).Some?
  {
    PatchOnlyAdds(r.json, SPACE_ONLY);
    AttributeKept(r, r'.json, r'.cells, SPACE_ONLY, f);
  }

  lemma ModelRowKept(rec: Recovered, r: Row, f: Field)
    requires MigrateRow(TWorldModels, rec, r).Some? && f != SpaceId
    ensures Attribute(MigrateRow(TWorldModels, rec, r).value, f) == Attribute(r, f)
    ensures FieldsOf(MigrateRow(TWorldModels, rec, r).value.json).Some?
  {
    ModelBlob(rec, r);
    PatchKeeps(r, MigrateRow(TWorldModels, rec, r).value, f);
  }

  lemma ModelsKept(cols: set<Column>, rec: Recovered, rows: seq<Row>, which: Field)
    requires RowsAfter(TWorldModels, cols, rec, rows).Some? && which != SpaceId
    ensures Owners(RowsAfter(TWorldModels, cols, rec, rows).value, which) == Owners(rows, which)
  {
    if !Untouched(TWorldModels, cols) {
      var after := RowsAfter(TWorldModels, cols, rec, rows).value;
      RowAt(TWorldModels, cols, rec, rows);
      forall i | 0 <= i < |rows|
        ensures Attribute(after[i], SubjectId) == Attribute(rows[i], SubjectId)
        ensures Attribute(after[i], which) == Attribute(rows[i], which)
      {
        ModelRowKept(rec, rows[i], SubjectId);
        ModelRowKept(rec, rows[i], which);
      }
      OwnersKept(rows, after, which);
    }
  }

  lemma ModelsReadable(cols: set<Column>, rec: Recovered, rows: seq<Row>)
    requires RowsAfter(TWorldModels, cols, rec, rows).Some? && Readable(rows)
    ensures Readable(RowsAfter(TWorldModels, cols, rec, rows).value)
  {
    if !Untouched(TWorldModels, cols) {
      var after := RowsAfter(TWorldModels, cols, rec, rows).value;
      RowAt(TWorldModels, cols, rec, rows);
      forall i | 0 <= i < |after| ensures FieldsOf(after[i].json).Some? {
        ModelRowKept(rec, rows[i], SubjectId);
      }
    }
  }

  lemma EvidenceKept(cols: set<Column>, rec: Recovered, rows: seq<Row>)
    requires RowsAfter(TEvidence, cols, rec, rows).Some?
    ensures SoleSubject(RowsAfter(TEvidence, cols, rec, rows).value) == SoleSubject(rows)
  {
    RowAt(TEvidence, cols, rec, rows);
    SubjectsKept(rows, RowsAfter(TEvidence, cols, rec, rows).value);
  }

  lemma AfterAt(d: Db, t: Table)
    requires MigrateV0(d).Some?
    ensures MigrateV0(d).value.columns.Keys == d.columns.Keys
    ensures t in d.columns ==>
              var after := MigrateV0(d).value;
              && after.columns[t] == ColumnsAfter(t, d.columns[t])
              && Steps(d, t) == Some(Lookup(after.tables, t))
  {
  }

  /** The second run recovers the same owners and the same fallback. */
  lemma RecoverKept(d: Db)
    requires MigrateV0(d).Some?
    ensures Recover(MigrateV0(d).value.columns, MigrateV0(d).value.tables) == Recover(d.columns, d.tables)
  {
    var rec := Recover(d.columns, d.tables);
    AfterAt(d, TWorldModels);
    AfterAt(d, TEvidence);
    if TWorldModels in d.columns {
      ModelsKept(d.columns[TWorldModels], rec, Lookup(d.tables, TWorldModels), ActiveHypothesisIds);
      ModelsKept(d.columns[TWorldModels], rec, Lookup(d.tables, TWorldModels), ActivePredictionIds);
    }
    if TEvidence in d.columns {
      EvidenceKept(d.columns[TEvidence], rec, Lookup(d.tables, TEvidence));
    }
  }

  lemma ColumnsFixed(t: Table, cols: set<Column>)
    ensures ColumnsAfter(t, ColumnsAfter(t, cols)) == ColumnsAfter(t, cols)
    ensures Rebuilt(t) ==> Untouched(t, ColumnsAfter(t, cols))
  {
  }

  lemma {:induction false} MapRowsFixed(step: Row -> Option<Row>, rows: seq<Row>)
    requires forall i :: 0 <= i < |rows| ==> step(rows[i]) == Some(rows[i])
    ensures MapRows(step, rows) == Some(rows)
  {
    var mapped := MapRows(step, rows);
    assert mapped.value == rows;
  }

  lemma RowsFixed(t: Table, cols: set<Column>, rec: Recovered, rows: seq<Row>)
    requires RowsAfter(t, cols, rec, rows).Some?
    ensures RowsAfter(t, ColumnsAfter(t, cols), rec, RowsAfter(t, cols, rec, rows).value) ==
            RowsAfter(t, cols, rec, rows)
  {
    ColumnsFixed(t, cols);
    var after := RowsAfter(t, cols, rec, rows).value;
    if !Rebuilt(t) && !t.TDependencies? {
      RowAt(t, cols, rec, rows);
      forall i | 0 <= i < |after| ensures RowStep(t, rec)(after[i]) == Some(after[i]) {
        RowFixed(t, rec, rows[i]);
      }
      MapRowsFixed(RowStep(t, rec), after);
    }
  }

  lemma StepsFixed(d: Db, t: Table)
    requires MigrateV0(d).Some? && t in d.columns
    ensures t in MigrateV0(d).value.columns
    ensures Steps(MigrateV0(d).value, t) == Some(MigrateV0(d).value.tables[t])
  {
    AfterAt(d, t);
    RecoverKept(d);
    RowsFixed(t, d.columns[t], Recover(d.columns, d.tables), Lookup(d.tables, t));
  }

  /** Idempotence of the unguarded step, for every database it does not raise on. */
  lemma MigrateTwice(d: Db)
    requires MigrateV0(d).Some?
    ensures MigrateV0(MigrateV0(d).value) == MigrateV0(d)
  {
    var after := MigrateV0(d).value;
    forall t | t in d.columns
      ensures Steps(after, t) == Some(after.tables[t])
      ensures ColumnsAfter(t, after.columns[t]) == after.columns[t]
    {
      StepsFixed(d, t);
      AfterAt(d, t);
      ColumnsFixed(t, d.columns[t]);
    }
    if TWorldModels in d.columns {
      AfterAt(d, TWorldModels);
      ModelsReadable(d.columns[TWorldModels], Recover(d.columns, d.tables), Lookup(d.tables, TWorldModels));
    }
    SameDb(after);
  }

  lemma SameDb(d: Db)
    requires TWorldModels in d.columns ==> Readable(Lookup(d.tables, TWorldModels))
    requires d.columns.Keys == d.tables.Keys
    requires forall t :: t in d.columns ==>
               Steps(d, t) == Some(d.tables[t]) && ColumnsAfter(t, d.columns[t]) == d.columns[t]
    ensures MigrateV0(d) == Some(d)
  {
    assert forall t :: t in d.columns ==> Steps(d, t).Some?;
    var after := MigrateV0(d).value;
    assert after.columns == d.columns;
    assert after.tables == d.tables;
  }
}
