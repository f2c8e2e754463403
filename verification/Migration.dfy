/** The in-place v0 -> v1 schema migration. */
module Migration {
  import opened Domain
  import opened Codec
  import opened Tables
  import opened Containers
  import opened Sql
  import opened Refinement
  import opened Patching

  const SCHEMA_VERSION: nat := 1

  // ----- recovering owners from the world models -----

  /** `json.loads(blob).get("fields", {})`; a blob of another shape raises. */
  function FieldsOf(j: Json): Option<map<Key, Json>> {
    if !j.JObj? then None
    else if KFields !in j.m then Some(map[])
    else if j.m[KFields].JObj? then Some(j.m[KFields].m) else None
  }

  predicate Readable(rows: seq<Row>) { forall i :: 0 <= i < |rows| ==> FieldsOf(rows[i].json).Some? }

  function Attribute(r: Row, f: Field): Json {
    var fm := FieldsOf(r.json);
    if fm.Some? && KField(f) in fm.value then fm.value[KField(f)] else JNull
  }

  /** The string members of an encoded tuple, or nothing. */
  function Members(j: Json): seq<string> {
    if j.JObj? && KTuple in j.m && j.m[KTuple].JArr? then Strings(j.m[KTuple].items) else []
  }

  function Strings(items: seq<Json>): seq<string> {
    if items == [] then []
    else Strings(items[..|items| - 1]) + if items[|items| - 1].JStr? then [items[|items| - 1].s] else []
  }

  /** The members are the strings at exactly the string positions of the items, each once and in order. */
  lemma {:induction false} StringsAre(items: seq<Json>) returns (at: seq<nat>)
    ensures |at| == |Strings(items)|
    ensures forall k :: 0 <= k < |at| ==> at[k] < |items| && items[at[k]] == JStr(Strings(items)[k])
    ensures forall j, k :: 0 <= j < k < |at| ==> at[j] < at[k]
    ensures forall i :: 0 <= i < |items| ==> (items[i].JStr? <==> i in at)
  {
    at := [];
    if items != [] {
      var init, last := items[..|items| - 1], items[|items| - 1];
      var before := StringsAre(init);
      assert items == init + [last];
      at := before + if last.JStr? then [|init|] else [];
      forall i | 0 <= i < |items| ensures items[i].JStr? <==> i in at {
        assert i < |init| ==> items[i] == init[i];
      }
    }
  }

  predicate IsTuple(j: Json) { j.JObj? && KTuple in j.m && j.m[KTuple].JArr? }

  lemma {:induction false} StringsHave(items: seq<Json>, id: string)
    ensures id in Strings(items) <==> JStr(id) in items
  {
    if items != [] {
      StringsHave(items[..|items| - 1], id);
      assert items == items[..|items| - 1] + [items[|items| - 1]];
    }
  }

  /** So an id is a member exactly when it is one of the strings of a tuple. */
  lemma MembersHave(j: Json, id: string)
    ensures id in Members(j) <==> IsTuple(j) && JStr(id) in j.m[KTuple].items
  {
    if IsTuple(j) {
      StringsHave(j.m[KTuple].items, id);
    }
  }

  predicate Names(r: Row, which: Field, id: string) {
    Attribute(r, SubjectId).JStr? && id in Members(Attribute(r, which))
  }

  /** `setdefault` for each id of one model. */
  function Claim(owners: map<string, string>, ids: seq<string>, subject: string): map<string, string> {
    if ids == [] then owners else
    var before, id := Claim(owners, ids[..|ids| - 1], subject), ids[|ids| - 1];
    if id in before then before else before[id := subject]
  }

  function ClaimRow(owners: map<string, string>, r: Row, which: Field): map<string, string> {
    if Attribute(r, SubjectId).JStr?
    then Claim(owners, Members(Attribute(r, which)), Attribute(r, SubjectId).s) else owners
  }

  /** The owner map as the scan over the world models builds it. */
  function Owners(rows: seq<Row>, which: Field): map<string, string> {
    if rows == [] then map[]
    else ClaimRow(Owners(rows[..|rows| - 1], which), rows[|rows| - 1], which)
  }

  /** The subject of the first model that names the id. */
  function FirstToName(rows: seq<Row>, which: Field, id: string): Option<string> {
    if rows == [] then None else
    var earlier, last := FirstToName(rows[..|rows| - 1], which, id), rows[|rows| - 1];
    if earlier.Some? then earlier
    else if Names(last, which, id) then Some(Attribute(last, SubjectId).s) else None
  }

  lemma {:induction false} ClaimIs(owners: map<string, string>, ids: seq<string>, subject: string, id: string)
    ensures id in Claim(owners, ids, subject) <==> id in owners || id in ids
    ensures id in owners ==> Claim(owners, ids, subject)[id] == owners[id]
    ensures id !in owners && id in ids ==> Claim(owners, ids, subject)[id] == subject
  {
    if ids != [] {
      ClaimIs(owners, ids[..|ids| - 1], subject, id);
      assert ids == ids[..|ids| - 1] + [ids[|ids| - 1]];
    }
  }

  /** The scan credits every id to the first world model, in row order, that names it. */
  lemma {:induction false} OwnersAreFirst(rows: seq<Row>, which: Field, id: string)
    ensures FirstToName(rows, which, id) == if id in Owners(rows, which) then Some(Owners(rows, which)[id]) else None
  {
    if rows != [] {
      var init, last := rows[..|rows| - 1], rows[|rows| - 1];
      OwnersAreFirst(init, which, id);
      if Attribute(last, SubjectId).JStr? {
        ClaimIs(Owners(init, which), Members(Attribute(last, which)), Attribute(last, SubjectId).s, id);
      }
    }
  }

  /** The distinct non-null evidence subjects; the fallback when there is exactly one. */
  function Subjects(rows: seq<Row>): set<Value> {
    set i | 0 <= i < |rows| && CellAt(rows[i], CSubject) != PyNone :: CellAt(rows[i], CSubject)
  }

  function SoleSubject(rows: seq<Row>): Option<string> {
    if exists s :: s in Subjects(rows) && Subjects(rows) == {s} && s.Str? then
      var s :| s in Subjects(rows) && Subjects(rows) == {s} && s.Str?;
      Some(s.s)
    else None
  }

  datatype Recovered = Recovered(hyp: map<string, string>, pred: map<string, string>, fallback: Option<string>)

  function Recover(columns: map<Table, set<Column>>, tables: Database): Recovered {
    var models := if TWorldModels in columns then Lookup(tables, TWorldModels) else [];
    Recovered(Owners(models, ActiveHypothesisIds), Owners(models, ActivePredictionIds),
              if TEvidence in columns && CSubject in columns[TEvidence]
              then SoleSubject(Lookup(tables, TEvidence)) else None)
  }

  /** `owners.get(id) or fallback or UNKNOWN`: an empty string counts as absent. */
  function Resolve(owners: map<string, string>, fallback: Option<string>, id: Value): string {
    if id.Str? && id.s in owners && owners[id.s] != "" then owners[id.s]
    else if fallback.Some? && fallback.value != "" then fallback.value
    else UNKNOWN_SUBJECT
  }

  // ----- rows -----

  function OwnerAdds(subject: string): map<Field, Json> {
    map[SubjectId := JStr(subject), SpaceId := JStr(DEFAULT_SPACE)]
  }

  const EVIDENCE_ADDS: map<Field, Json> := map[SpaceId := JStr(DEFAULT_SPACE), ActorId := JNull]

  function Patched(r: Row, cells: map<Column, Value>, json: Option<Json>): Option<Row> {
    if json.Some? then Some(Row(cells, json.value)) else None
  }

  lemma PatchedBlob(r: Row, cells: map<Column, Value>, json: Option<Json>)
    ensures Patched(r, cells, json).Some? ==> json == Some(Patched(r, cells, json).value.json)
  {
  }

  function Spaced(r: Row): map<Column, Value> {
    r.cells[CSpace := if CellAt(r, CSpace) == PyNone then Str(DEFAULT_SPACE) else CellAt(r, CSpace)]
  }

  function Owned(r: Row, subject: string): Option<Row> {
    Patched(r, r.cells[CSpace := Str(DEFAULT_SPACE)][CSubject := Str(subject)], PatchFields(r.json, OwnerAdds(subject)))
  }

  /** What the migration makes of one row; `None` is a raised exception. */
  function MigrateRow(t: Table, rec: Recovered, r: Row): Option<Row> {
    match t
    case TEvidence => Patched(r, Spaced(r), PatchFields(r.json, EVIDENCE_ADDS))
    case TInference => Patched(r, Spaced(r), PatchFields(r.json, SPACE_ONLY))
    case TInquiries => Patched(r, Spaced(r), PatchFields(r.json, SPACE_ONLY))
    case TRecognition => Patched(r, Spaced(r), PatchFields(r.json, SPACE_ONLY))
    case THypotheses => Owned(r, Resolve(rec.hyp, rec.fallback, CellAt(r, CHypothesisId)))
    case TPredictions => Owned(r, Resolve(rec.pred, rec.fallback, CellAt(r, CId)))
    case TAnomalies => Patched(r, r.cells, PatchFields(r.json, SPACE_ONLY))
    case TProvenance => Patched(r, r.cells, PatchFields(r.json, SPACE_ONLY))
    case TWorldModels =>
      Patched(r, map[CSpace := Str(DEFAULT_SPACE), CSubject := CellAt(r, CSubject), CVersion := CellAt(r, CVersion)],
              PatchFields(r.json, SPACE_ONLY))
    case TCurrentPointer =>
      Patched(r, map[CSpace := Str(DEFAULT_SPACE), CSubject := CellAt(r, CSubject)], PatchFields(r.json, SPACE_ONLY))
    case TLedger =>
      Patched(r, map[CSpace := Str(DEFAULT_SPACE), CSubject := CellAt(r, CSubject), CSeq := CellAt(r, CSeq)],
              PatchLedger(r.json))
    case TDependencies => Some(r)
  }

  /** Row by row, in rowid order; one bad row raises. */
  function MapRows(step: Row -> Option<Row>, rows: seq<Row>): (r: Option<seq<Row>>)
    ensures r.Some? <==> forall i :: 0 <= i < |rows| ==> step(rows[i]).Some?
    ensures r.Some? ==> |r.value| == |rows|
    ensures r.Some? ==> forall i :: 0 <= i < |rows| ==> step(rows[i]) == Some(r.value[i])
  {
    if rows == [] then Some([]) else
    var init, last := MapRows(step, rows[..|rows| - 1]), step(rows[|rows| - 1]);
    if init.Some? && last.Some? then Some(init.value + [last.value]) else None
  }

  function RowStep(t: Table, rec: Recovered): Row -> Option<Row> {
    r => MigrateRow(t, rec, r)
  }

  /** Tables whose primary key gains the space are rebuilt, unless they already have the column. */
  predicate Rebuilt(t: Table) { t.TWorldModels? || t.TCurrentPointer? || t.TLedger? }

  predicate Untouched(t: Table, cols: set<Column>) { t.TDependencies? || (Rebuilt(t) && CSpace in cols) }

  function ColumnsAfter(t: Table, cols: set<Column>): set<Column> {
    if Untouched(t, cols) || t.TAnomalies? || t.TProvenance? then cols
    else if Rebuilt(t) then ColumnsOf(t)
    else if t.THypotheses? || t.TPredictions? then cols + {CSpace, CSubject}
    else cols + {CSpace}
  }

  function RebuiltKey(t: Table): set<Column> {
    match t
    case TWorldModels => {CSpace, CSubject, CVersion}
    case TCurrentPointer => {CSpace, CSubject}
    case _ => {CSpace, CSubject, CSeq}
  }

  /** Equal keys, none of them NULL: SQLite counts NULLs in a primary key as distinct. */
  predicate Clash(key: set<Column>, a: Row, b: Row) {
    forall c :: c in key ==> CellAt(a, c) == CellAt(b, c) && CellAt(a, c) != PyNone
  }

  function InsertRow(key: set<Column>, rows: seq<Row>, r: Row): Option<seq<Row>> {
    if exists x :: x in rows && Clash(key, x, r) then None else Some(rows + [r])
  }

  /** Filling a recreated table: INSERT each row, an IntegrityError raises. */
  function InsertAll(key: set<Column>, rows: seq<Row>): Option<seq<Row>> {
    if rows == [] then Some([]) else
    var init := InsertAll(key, rows[..|rows| - 1]);
    if init.Some? then InsertRow(key, init.value, rows[|rows| - 1]) else None
  }

  predicate DistinctBy(key: set<Column>, rows: seq<Row>) {
    forall i, j :: 0 <= i < j < |rows| ==> !Clash(key, rows[i], rows[j])
  }

  lemma {:induction false} InsertAllIsCopy(key: set<Column>, rows: seq<Row>)
    ensures InsertAll(key, rows) == if DistinctBy(key, rows) then Some(rows) else None
  {
    if rows != [] {
      var n := |rows| - 1;
      InsertAllIsCopy(key, rows[..n]);
      assert rows[..n] + [rows[n]] == rows;
      if DistinctBy(key, rows[..n]) && !DistinctBy(key, rows) {
        var i, j :| 0 <= i < j < |rows| && Clash(key, rows[i], rows[j]);
        assert j == n && rows[i] in rows[..n];
      }
    }
  }

  function RowsAfter(t: Table, cols: set<Column>, rec: Recovered, rows: seq<Row>): Option<seq<Row>> {
    if Untouched(t, cols) then Some(rows) else
    var mapped := MapRows(RowStep(t, rec), rows);
    if Rebuilt(t) && mapped.Some? then InsertAll(RebuiltKey(t), mapped.value) else mapped
  }

  datatype Db = Db(columns: map<Table, set<Column>>, tables: Database)

  function Steps(d: Db, t: Table): Option<seq<Row>>
    requires t in d.columns
  {
    RowsAfter(t, d.columns[t], Recover(d.columns, d.tables), Lookup(d.tables, t))
  }

  /** The whole step, without its version guard; `None` is a raised exception. */
  function MigrateV0(d: Db): Option<Db> {
    if TWorldModels in d.columns && !Readable(Lookup(d.tables, TWorldModels)) then None
    else if forall t :: t in d.columns ==> Steps(d, t).Some? then
      Some(Db(map t | t in d.columns :: ColumnsAfter(t, d.columns[t]),
                  map t | t in d.columns :: Steps(d, t).value))
    else None
  }

  // ----- nothing is lost -----

  /** No row is dropped, added or reordered, old columns keep their values and blobs only gain attributes. */
  lemma RowsPreserved(d: Db, t: Table, i: nat)
    requires MigrateV0(d).Some? && t in d.columns && i < |Lookup(d.tables, t)|
    ensures var before, after := Lookup(d.tables, t), Lookup(MigrateV0(d).value.tables, t);
            |after| == |before| && RowKept(t, before[i], after[i])
  {
    var rec, rows := Recover(d.columns, d.tables), Lookup(d.tables, t);
    assert Steps(d, t).Some?;
    if !Untouched(t, d.columns[t]) {
      var mapped := MapRows(RowStep(t, rec), rows);
      if Rebuilt(t) {
        InsertAllIsCopy(RebuiltKey(t), mapped.value);
      }
      assert MigrateRow(t, rec, rows[i]) == Some(mapped.value[i]);
      MigratedRowKept(t, rec, rows[i]);
    } else {
      SameBlobKept(rows[i].json);
    }
  }

  lemma SameBlobKept(j: Json)
    ensures BlobKept(j, j) && LedgerBlobKept(j, j)
  {
    if HoldsEvent(j) {
      WithOwnEvent(j);
    }
  }

  /** The key columns the table had before. */
  function LegacyColumns(t: Table): set<Column> {
    ColumnsOf(t) - {CSpace} - if t.THypotheses? || t.TPredictions? then {CSubject} else {}
  }

  ghost predicate RowKept(t: Table, before: Row, after: Row) {
    && (forall c :: c in LegacyColumns(t) ==> CellAt(after, c) == CellAt(before, c))
    && (if t.TLedger? then LedgerBlobKept(before.json, after.json) else BlobKept(before.json, after.json))
    && (t.TEvidence? || t.TInference? || t.TInquiries? || t.TRecognition? ==> SpaceKept(before, after))
  }

  /** A space that was there is there unchanged, and a missing one is the default space now. */
  predicate SpaceKept(before: Row, after: Row) {
    && (CellAt(before, CSpace) != PyNone ==> CellAt(after, CSpace) == CellAt(before, CSpace))
    && (CellAt(before, CSpace) == PyNone ==> CellAt(after, CSpace) == Str(DEFAULT_SPACE))
  }

  /** Every attribute that was there is there unchanged. */
  ghost predicate BlobKept(before: Json, after: Json) {
    FieldsOf(before).Some? && FieldsOf(after).Some? ==>
      forall k :: k in FieldsOf(before).value ==>
        k in FieldsOf(after).value && FieldsOf(after).value[k] == FieldsOf(before).value[k]
  }

  /** The same one level down: only the nested event may gain attributes. */
  ghost predicate LedgerBlobKept(before: Json, after: Json) {
    if HoldsEvent(before)
    then HoldsEvent(after) && after == WithEvent(before, EventBlob(after))
        && BlobKept(EventBlob(before), EventBlob(after))
    else after == before
  }

  lemma LedgerPatchKeepsBlob(j: Json)
    ensures PatchLedger(j).Some? ==> LedgerBlobKept(j, PatchLedger(j).value)
  {
    if PatchLedger(j).Some? {
      PatchLedgerForm(j);
      if HoldsEvent(j) {
        PatchKeepsBlob(EventBlob(j), SPACE_ONLY);
        PatchOnlyAdds(EventBlob(j), SPACE_ONLY);
      } else {
      }
    }
  }

  lemma PatchKeepsBlob(j: Json, adds: map<Field, Json>)
    ensures PatchFields(j, adds).Some? ==> BlobKept(j, PatchFields(j, adds).value)
  {
    if PatchFields(j, adds).Some? {
      PatchOnlyAdds(j, adds);
    }
  }

  lemma MigratedRowKept(t: Table, rec: Recovered, r: Row)
    requires MigrateRow(t, rec, r).Some?
    ensures RowKept(t, r, MigrateRow(t, rec, r).value)
  {
    match t
    case TEvidence => PatchKeepsBlob(r.json, EVIDENCE_ADDS);
    case THypotheses => PatchKeepsBlob(r.json, OwnerAdds(Resolve(rec.hyp, rec.fallback, CellAt(r, CHypothesisId))));
    case TPredictions => PatchKeepsBlob(r.json, OwnerAdds(Resolve(rec.pred, rec.fallback, CellAt(r, CId))));
    case TDependencies =>
    case TLedger => LedgerPatchKeepsBlob(r.json);
    case _ => PatchKeepsBlob(r.json, SPACE_ONLY);
  }

  // ----- running it twice changes nothing more -----

  lemma AttributeKept(r: Row, json: Json, cells: map<Column, Value>, adds: map<Field, Json>, f: Field)
    requires PatchFields(r.json, adds) == Some(json) && f !in adds
    ensures Attribute(Row(cells, json), f) == Attribute(r, f)
  {
    PatchOnlyAdds(r.json, adds);
    if KFields in r.json.m {
      assert KField(f) in json.m[KFields].m <==> KField(f) in r.json.m[KFields].m;
    }
  }

  lemma {:induction false} OwnersKept(rows: seq<Row>, after: seq<Row>, which: Field)
    requires |rows| == |after|
    requires forall i :: 0 <= i < |rows| ==>
               && Attribute(after[i], SubjectId) == Attribute(rows[i], SubjectId)
               && Attribute(after[i], which) == Attribute(rows[i], which)
    ensures Owners(after, which) == Owners(rows, which)
  {
    if rows != [] {
      OwnersKept(rows[..|rows| - 1], after[..|rows| - 1], which);
    }
  }

  lemma SubjectsKept(rows: seq<Row>, after: seq<Row>)
    requires |rows| == |after|
    requires forall i :: 0 <= i < |rows| ==> CellAt(after[i], CSubject) == CellAt(rows[i], CSubject)
    ensures SoleSubject(after) == SoleSubject(rows)
  {
    assert Subjects(after) == Subjects(rows);
  }

  lemma SpacedFixed(r: Row, adds: map<Field, Json>)
    ensures var once := Patched(r, Spaced(r), PatchFields(r.json, adds));
            once.Some? ==> Patched(once.value, Spaced(once.value), PatchFields(once.value.json, adds)) == once
  {
    if PatchFields(r.json, adds).Some? {
      PatchIdempotent(r.json, adds);
      SpacedTwice(r, Row(Spaced(r), PatchFields(r.json, adds).value));
    }
  }

  lemma SpacedTwice(r: Row, once: Row)
    requires once.cells == Spaced(r)
    ensures Spaced(once) == once.cells
  {
  }

  lemma BlobFixed(r: Row)
    ensures var once := Patched(r, r.cells, PatchFields(r.json, SPACE_ONLY));
            once.Some? ==> Patched(once.value, once.value.cells, PatchFields(once.value.json, SPACE_ONLY)) == once
  {
    if PatchFields(r.json, SPACE_ONLY).Some? {
      PatchIdempotent(r.json, SPACE_ONLY);
    }
  }

  lemma OwnedFixed(r: Row, subject: string)
    ensures Owned(r, subject).Some? ==> Owned(Owned(r, subject).value, subject) == Owned(r, subject)
  {
    if Owned(r, subject).Some? {
      PatchIdempotent(r.json, OwnerAdds(subject));
      OwnedCells(r.cells, subject);
    }
  }

  lemma OwnedCells(cells: map<Column, Value>, subject: string)
    ensures var once := cells[CSpace := Str(DEFAULT_SPACE)][CSubject := Str(subject)];
            once[CSpace := Str(DEFAULT_SPACE)][CSubject := Str(subject)] == once
  {
  }

  lemma OwnedElsewhere(r: Row, subject: string, c: Column)
    requires Owned(r, subject).Some? && c != CSpace && c != CSubject
    ensures CellAt(Owned(r, subject).value, c) == CellAt(r, c)
  {
  }

  /** A migrated row is a fixpoint of the step with the same recovered owners. */
  lemma RowFixed(t: Table, rec: Recovered, r: Row)
    requires !Rebuilt(t) && MigrateRow(t, rec, r).Some?
    ensures MigrateRow(t, rec, MigrateRow(t, rec, r).value) == MigrateRow(t, rec, r)
  {
    match t
    case TEvidence => SpacedFixed(r, EVIDENCE_ADDS);
    case THypotheses =>
      var s := Resolve(rec.hyp, rec.fallback, CellAt(r, CHypothesisId));
      OwnedFixed(r, s);
      OwnedElsewhere(r, s, CHypothesisId);
    case TPredictions =>
      var s := Resolve(rec.pred, rec.fallback, CellAt(r, CId));
      OwnedFixed(r, s);
      OwnedElsewhere(r, s, CId);
    case TAnomalies => BlobFixed(r);
    case TProvenance => BlobFixed(r);
    case TDependencies =>
    case _ => SpacedFixed(r, SPACE_ONLY);
  }
}
