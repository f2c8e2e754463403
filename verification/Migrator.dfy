/** The migration as it runs: statement by statement, row by row, on one open connection. */
module Migrator {
  import opened Domain
  import opened Codec
  import opened Tables
  import opened Containers
  import opened Sql
  import opened Refinement
  import opened Patching
  import opened SqliteStores
  import opened Migration
  import opened Migrated

  lemma StringsPrefix(items: seq<Json>, i: nat)
    requires i < |items|
    ensures Strings(items[..i + 1]) == Strings(items[..i]) + if items[i].JStr? then [items[i].s] else []
  {
    assert items[..i + 1][..i] == items[..i];
  }

  lemma ClaimOne(owners: map<string, string>, ids: seq<string>, id: string, subject: string)
    ensures Claim(owners, ids + [id], subject) ==
            var before := Claim(owners, ids, subject); if id in before then before else before[id := subject]
  {
    assert (ids + [id])[..|ids|] == ids;
  }

  lemma ClaimsAre(owners: map<string, string>, encoded: Json, subject: string)
    ensures var r := Claim(owners, Members(encoded), subject);
            && (forall id :: id in r <==> id in owners || (IsTuple(encoded) && JStr(id) in encoded.m[KTuple].items))
            && forall id :: id in r ==> r[id] == if id in owners then owners[id] else subject
  {
    forall id
      ensures id in Claim(owners, Members(encoded), subject) <==>
              id in owners || (IsTuple(encoded) && JStr(id) in encoded.m[KTuple].items)
      ensures id in Claim(owners, Members(encoded), subject) ==>
                Claim(owners, Members(encoded), subject)[id] == if id in owners then owners[id] else subject
    {
      ClaimIs(owners, Members(encoded), subject, id);
      MembersHave(encoded, id);
    }
  }

  /** `for id in _tuple_values(...): owners.setdefault(id, subject)`. */
  method ClaimEach(owners: map<string, string>, encoded: Json, subject: string) returns (r: map<string, string>)
    ensures r == Claim(owners, Members(encoded), subject)
    ensures forall id :: id in r <==> id in owners || (IsTuple(encoded) && JStr(id) in encoded.m[KTuple].items)
    ensures forall id :: id in r ==> r[id] == if id in owners then owners[id] else subject
  {
    ClaimsAre(owners, encoded, subject);
    r := owners;
    if !encoded.JObj? || KTuple !in encoded.m || !encoded.m[KTuple].JArr? {
      return;
    }
    var items := encoded.m[KTuple].items;
    for i := 0 to |items|
      invariant r == Claim(owners, Strings(items[..i]), subject)
    {
      StringsPrefix(items, i);
      if items[i].JStr? {
        ClaimOne(owners, Strings(items[..i]), items[i].s, subject);
        if items[i].s !in r {
          r := r[items[i].s := subject];
        }
      } else {
        assert Strings(items[..i + 1]) == Strings(items[..i]);
      }
    }
    assert items[..|items|] == items;
  }

  lemma OwnersPrefix(rows: seq<Row>, which: Field, i: nat)
    requires i < |rows|
    ensures Owners(rows[..i + 1], which) == ClaimRow(Owners(rows[..i], which), rows[i], which)
  {
    assert rows[..i + 1][..i] == rows[..i];
  }

  /** Step 1 and 2: the two owner maps from one scan of the world models, and the fallback. */
  method RecoverOwners(conn: Connection) returns (ok: bool, rec: Recovered)
    ensures ok <==> (TWorldModels in conn.columns ==> Readable(Lookup(conn.tables, TWorldModels)))
    ensures ok ==> rec == Recover(conn.columns, conn.tables)
  {
    var hyp: map<string, string>, pred: map<string, string> := map[], map[];
    rec := Recovered(hyp, pred, None);
    if TWorldModels in conn.columns {
      var models := Lookup(conn.tables, TWorldModels);
      for i := 0 to |models|
        invariant hyp == Owners(models[..i], ActiveHypothesisIds)
        invariant pred == Owners(models[..i], ActivePredictionIds)
        invariant forall k :: 0 <= k < i ==> FieldsOf(models[k].json).Some?
      {
        if FieldsOf(models[i].json).None? {
          return false, rec;
        }
        OwnersPrefix(models, ActiveHypothesisIds, i);
        OwnersPrefix(models, ActivePredictionIds, i);
        if Attribute(models[i], SubjectId).JStr? {
          hyp := ClaimEach(hyp, Attribute(models[i], ActiveHypothesisIds), Attribute(models[i], SubjectId).s);
          pred := ClaimEach(pred, Attribute(models[i], ActivePredictionIds), Attribute(models[i], SubjectId).s);
        }
      }
      assert models[..|models|] == models;
    }
    var fallback: Option<string> := None;
    if TEvidence in conn.columns && CSubject in conn.columns[TEvidence] {
      fallback := SoleSubject(Lookup(conn.tables, TEvidence));
    }
    ok, rec := true, Recovered(hyp, pred, fallback);
  }

  /** Only the one table is written. */
  ghost predicate Only(t: Table, before: Database, after: Database) {
    forall u: Table :: u != t ==> Lookup(after, u) == Lookup(before, u)
  }

  /** The first rows have their blob rewritten, the others are as they were. */
  ghost predicate Rewritten(rows: seq<Row>, now: seq<Row>, adds: map<Field, Json>, i: nat) {
    && i <= |rows| == |now|
    && (forall k :: 0 <= k < i ==> Patched(rows[k], rows[k].cells, PatchFields(rows[k].json, adds)) == Some(now[k]))
    && (forall k :: i <= k < |rows| ==> now[k] == rows[k])
  }

  lemma RewriteNext(rows: seq<Row>, now: seq<Row>, adds: map<Field, Json>, i: nat, json: Json)
    requires i < |rows| && Rewritten(rows, now, adds, i) && PatchFields(rows[i].json, adds) == Some(json)
    ensures Rewritten(rows, now[i := rows[i].(json := json)], adds, i + 1)
  {
  }

  /** `_rewrite_blobs`: every blob in place, row by row. */
  method RewriteBlobs(conn: Connection, t: Table, adds: map<Field, Json>) returns (ok: bool)
    modifies conn`tables
    ensures var before, after := Lookup(old(conn.tables), t), Lookup(conn.tables, t);
            && (ok <==> forall i :: 0 <= i < |before| ==> PatchFields(before[i].json, adds).Some?)
            && (ok ==> Rewritten(before, after, adds, |before|))
    ensures Only(t, old(conn.tables), conn.tables)
  {
    var rows := Lookup(conn.tables, t);
    for i := 0 to |rows|
      invariant Only(t, old(conn.tables), conn.tables)
      invariant Rewritten(rows, Lookup(conn.tables, t), adds, i)
      invariant forall k :: 0 <= k < i ==> PatchFields(rows[k].json, adds).Some?
    {
      var json := PatchFields(rows[i].json, adds);
      if json.None? {
        return false;
      }
      RewriteNext(rows, Lookup(conn.tables, t), adds, i, json.value);
      conn.tables := conn.tables[t := Lookup(conn.tables, t)[i := rows[i].(json := json.value)]];
    }
    ok := true;
  }

  predicate GainsSpace(t: Table) { t.TEvidence? || t.TInference? || t.TInquiries? || t.TRecognition? }

  /** What one table's step has to have done. */
  ghost predicate Moved(t: Table, rec: Recovered, before: Db, after: Db, ok: bool) {
    if t !in before.columns then ok && after == before
    else
      var rows := RowsAfter(t, before.columns[t], rec, Lookup(before.tables, t));
      && ok == rows.Some?
      && (ok ==> && after.columns == before.columns[t := ColumnsAfter(t, before.columns[t])]
                 && Lookup(after.tables, t) == rows.value && Only(t, before.tables, after.tables))
  }

  lemma MovedRows(t: Table, cols: set<Column>, rec: Recovered, rows: seq<Row>, after: seq<Row>, ok: bool)
    requires !Rebuilt(t) && !t.TDependencies?
    requires ok <==> forall i :: 0 <= i < |rows| ==> MigrateRow(t, rec, rows[i]).Some?
    requires ok ==> |after| == |rows| && forall i :: 0 <= i < |rows| ==> MigrateRow(t, rec, rows[i]) == Some(after[i])
    ensures ok == RowsAfter(t, cols, rec, rows).Some?
    ensures ok ==> RowsAfter(t, cols, rec, rows).value == after
  {
    assert forall i :: 0 <= i < |rows| ==> RowStep(t, rec)(rows[i]) == MigrateRow(t, rec, rows[i]);
    if ok {
      assert MapRows(RowStep(t, rec), rows).value == after;
    }
  }

  function SpacedRows(rows: seq<Row>): (r: seq<Row>)
    ensures |r| == |rows| && forall i :: 0 <= i < |rows| ==> r[i] == Row(Spaced(rows[i]), rows[i].json)
  {
    seq(|rows|, i requires 0 <= i < |rows| => Row(Spaced(rows[i]), rows[i].json))
  }

  lemma SpacedStep(t: Table, rec: Recovered, r: Row)
    requires GainsSpace(t)
    ensures MigrateRow(t, rec, r) == Patched(r, Spaced(r), PatchFields(r.json, BlobAdds(t, "")))
  {
  }

  lemma SpacedRowsMoved(t: Table, cols: set<Column>, rec: Recovered, rows: seq<Row>, after: seq<Row>, ok: bool)
    requires GainsSpace(t)
    requires ok <==> forall i :: 0 <= i < |rows| ==> PatchFields(rows[i].json, BlobAdds(t, "")).Some?
    requires ok ==> |after| == |rows| && forall i :: 0 <= i < |rows| ==>
                      Patched(rows[i], Spaced(rows[i]), PatchFields(rows[i].json, BlobAdds(t, ""))) == Some(after[i])
    ensures ok == RowsAfter(t, cols, rec, rows).Some?
    ensures ok ==> RowsAfter(t, cols, rec, rows).value == after
  {
    forall i | 0 <= i < |rows|
      ensures MigrateRow(t, rec, rows[i]) ==
              Patched(rows[i], Spaced(rows[i]), PatchFields(rows[i].json, BlobAdds(t, "")))
    {
      SpacedStep(t, rec, rows[i]);
    }
    MovedRows(t, cols, rec, rows, after, ok);
  }

  /** The two statements that give every row a space. */
  method BackfillSpace(conn: Connection, t: Table)
    modifies conn`columns, conn`tables
    requires t in conn.columns
    ensures conn.columns == old(conn.columns)[t := old(conn.columns)[t] + {CSpace}]
    ensures conn.tables == old(conn.tables)[t := SpacedRows(Lookup(old(conn.tables), t))]
  {
    conn.columns := conn.columns[t := conn.columns[t] + {CSpace}];
    conn.tables := conn.tables[t := SpacedRows(Lookup(conn.tables, t))];
  }

  lemma RewrittenSpaced(rows: seq<Row>, after: seq<Row>, adds: map<Field, Json>, ok: bool)
    requires ok <==> forall i :: 0 <= i < |rows| ==> PatchFields(SpacedRows(rows)[i].json, adds).Some?
    requires ok ==> Rewritten(SpacedRows(rows), after, adds, |rows|)
    ensures ok <==> forall i :: 0 <= i < |rows| ==> PatchFields(rows[i].json, adds).Some?
    ensures ok ==> |after| == |rows| && forall i :: 0 <= i < |rows| ==>
                     Patched(rows[i], Spaced(rows[i]), PatchFields(rows[i].json, adds)) == Some(after[i])
  {
    assert forall i :: 0 <= i < |rows| ==> SpacedRows(rows)[i].json == rows[i].json;
  }

  method AddSpaceTo(conn: Connection, t: Table, ghost rec: Recovered) returns (ok: bool)
    requires GainsSpace(t) && t in conn.columns
    modifies conn`columns, conn`tables
    ensures var rows := RowsAfter(t, old(conn.columns[t]), rec, Lookup(old(conn.tables), t));
            ok == rows.Some? && (ok ==> Lookup(conn.tables, t) == rows.value)
    ensures conn.columns == old(conn.columns)[t := old(conn.columns)[t] + {CSpace}]
    ensures Only(t, old(conn.tables), conn.tables)
  {
    ghost var cols, before := conn.columns[t], Lookup(conn.tables, t);
    BackfillSpace(conn, t);
    ok := RewriteBlobs(conn, t, BlobAdds(t, ""));
    RewrittenSpaced(before, Lookup(conn.tables, t), BlobAdds(t, ""), ok);
    SpacedRowsMoved(t, cols, rec, before, Lookup(conn.tables, t), ok);
  }

  /** `_add_space_column`: ALTER, one UPDATE for the rows without a space, then the blobs. */
  method AddSpaceColumn(conn: Connection, t: Table, ghost rec: Recovered) returns (ok: bool)
    requires GainsSpace(t)
    modifies conn`columns, conn`tables
    ensures Moved(t, rec, old(Db(conn.columns, conn.tables)), Db(conn.columns, conn.tables), ok)
  {
    if t !in conn.columns {
      return true;
    }
    ok := AddSpaceTo(conn, t, rec);
  }

  /** Anomalies and provenance keep their columns; only the blobs change. */
  method RewriteTable(conn: Connection, t: Table, ghost rec: Recovered) returns (ok: bool)
    requires t.TAnomalies? || t.TProvenance?
    modifies conn`columns, conn`tables
    ensures Moved(t, rec, old(Db(conn.columns, conn.tables)), Db(conn.columns, conn.tables), ok)
  {
    if t !in conn.columns {
      return true;
    }
    ghost var before := Db(conn.columns, conn.tables);
    ok := RewriteBlobs(conn, t, SPACE_ONLY);
    RewrittenMoved(t, rec, before, Db(conn.columns, conn.tables), ok);
  }

  lemma RewrittenStep(t: Table, rec: Recovered, r: Row)
    requires t.TAnomalies? || t.TProvenance?
    ensures MigrateRow(t, rec, r) == Patched(r, r.cells, PatchFields(r.json, SPACE_ONLY))
  {
  }

  lemma RewrittenRows(t: Table, rec: Recovered, adds: map<Field, Json>, rows: seq<Row>, after: seq<Row>, ok: bool)
    requires forall i :: 0 <= i < |rows| ==>
               MigrateRow(t, rec, rows[i]) == Patched(rows[i], rows[i].cells, PatchFields(rows[i].json, adds))
    requires ok <==> forall i :: 0 <= i < |rows| ==> PatchFields(rows[i].json, adds).Some?
    requires ok ==> Rewritten(rows, after, adds, |rows|)
    ensures ok <==> forall i :: 0 <= i < |rows| ==> MigrateRow(t, rec, rows[i]).Some?
    ensures ok ==> |after| == |rows| && forall i :: 0 <= i < |rows| ==> MigrateRow(t, rec, rows[i]) == Some(after[i])
  {
  }

  lemma RewrittenMoved(t: Table, rec: Recovered, before: Db, after: Db, ok: bool)
    requires t.TAnomalies? || t.TProvenance?
    requires t in before.columns && after.columns == before.columns && Only(t, before.tables, after.tables)
    requires var rows := Lookup(before.tables, t);
             && (ok <==> forall i :: 0 <= i < |rows| ==> PatchFields(rows[i].json, SPACE_ONLY).Some?)
             && (ok ==> Rewritten(rows, Lookup(after.tables, t), SPACE_ONLY, |rows|))
    ensures Moved(t, rec, before, after, ok)
  {
    var rows := Lookup(before.tables, t);
    forall i | 0 <= i < |rows|
      ensures MigrateRow(t, rec, rows[i]) == Patched(rows[i], rows[i].cells, PatchFields(rows[i].json, SPACE_ONLY))
    {
      RewrittenStep(t, rec, rows[i]);
    }
    RewrittenRows(t, rec, SPACE_ONLY, rows, Lookup(after.tables, t), ok);
    MovedRows(t, before.columns[t], rec, Lookup(before.tables, t), Lookup(after.tables, t), ok);
    assert before.columns == before.columns[t := before.columns[t]];
  }

  /** The first rows are migrated, the others are as they were. */
  ghost predicate MigratedUpTo(t: Table, rec: Recovered, rows: seq<Row>, now: seq<Row>, i: nat) {
    && i <= |rows| == |now|
    && (forall k :: 0 <= k < i ==> MigrateRow(t, rec, rows[k]) == Some(now[k]))
    && (forall k :: i <= k < |rows| ==> now[k] == rows[k])
  }

  lemma OwnedStep(t: Table, rec: Recovered, r: Row)
    requires OwnerRecovered(t)
    ensures MigrateRow(t, rec, r) == Owned(r, RowOwner(t, rec, r))
  {
  }

  lemma OwnedNext(t: Table, rec: Recovered, rows: seq<Row>, now: seq<Row>, i: nat, row: Row)
    requires i < |rows| && MigratedUpTo(t, rec, rows, now, i) && MigrateRow(t, rec, rows[i]) == Some(row)
    ensures MigratedUpTo(t, rec, rows, now[i := row], i + 1)
  {
  }

  lemma OwnedFails(t: Table, cols: set<Column>, rec: Recovered, rows: seq<Row>, i: nat)
    requires OwnerRecovered(t) && i < |rows| && MigrateRow(t, rec, rows[i]).None?
    ensures RowsAfter(t, cols, rec, rows).None?
  {
    MovedRows(t, cols, rec, rows, [], false);
  }

  lemma OwnedAll(t: Table, cols: set<Column>, rec: Recovered, rows: seq<Row>, now: seq<Row>)
    requires OwnerRecovered(t) && MigratedUpTo(t, rec, rows, now, |rows|)
    ensures RowsAfter(t, cols, rec, rows) == Some(now)
  {
    MovedRows(t, cols, rec, rows, now, true);
  }

  /** The loop: owner, space and blob of every row, in place. */
  method AssignOwners(conn: Connection, t: Table, rec: Recovered, ghost cols: set<Column>) returns (ok: bool)
    requires OwnerRecovered(t)
    modifies conn`tables
    ensures var rows := RowsAfter(t, cols, rec, Lookup(old(conn.tables), t));
            ok == rows.Some? && (ok ==> Lookup(conn.tables, t) == rows.value)
    ensures Only(t, old(conn.tables), conn.tables)
  {
    var rows := Lookup(conn.tables, t);
    for i := 0 to |rows|
      invariant Only(t, old(conn.tables), conn.tables)
      invariant MigratedUpTo(t, rec, rows, Lookup(conn.tables, t), i)
    {
      OwnedStep(t, rec, rows[i]);
      var row := Owned(rows[i], RowOwner(t, rec, rows[i]));
      if row.None? {
        OwnedFails(t, cols, rec, rows, i);
        return false;
      }
      OwnedNext(t, rec, rows, Lookup(conn.tables, t), i, row.value);
      conn.tables := conn.tables[t := Lookup(conn.tables, t)[i := row.value]];
    }
    OwnedAll(t, cols, rec, rows, Lookup(conn.tables, t));
    ok := true;
  }

  /** `_migrate_hypotheses` and `_migrate_predictions`. */
  method MigrateOwned(conn: Connection, t: Table, rec: Recovered) returns (ok: bool)
    requires OwnerRecovered(t)
    modifies conn`columns, conn`tables
    ensures Moved(t, rec, old(Db(conn.columns, conn.tables)), Db(conn.columns, conn.tables), ok)
  {
    if t !in conn.columns {
      return true;
    }
    ghost var cols := conn.columns[t];
    conn.columns := conn.columns[t := conn.columns[t] + {CSpace, CSubject}];
    ok := AssignOwners(conn, t, rec, cols);
  }

  lemma InsertPrefix(key: set<Column>, rows: seq<Row>, i: nat)
    requires i < |rows|
    ensures InsertAll(key, rows[..i + 1]) ==
            var init := InsertAll(key, rows[..i]);
            if init.Some? then InsertRow(key, init.value, rows[i]) else None
  {
    assert rows[..i + 1][..i] == rows[..i];
  }

  lemma {:induction false} InsertFails(key: set<Column>, rows: seq<Row>, i: nat)
    requires i <= |rows| && InsertAll(key, rows[..i]).None?
    ensures InsertAll(key, rows).None?
    decreases |rows| - i
  {
    if i == |rows| {
      assert rows[..i] == rows;
    } else {
      InsertPrefix(key, rows, i);
      InsertFails(key, rows, i + 1);
    }
  }

  lemma RebuildFails(t: Table, cols: set<Column>, rec: Recovered, rows: seq<Row>, i: nat)
    requires Rebuilt(t) && CSpace !in cols && i < |rows| && MigrateRow(t, rec, rows[i]).None?
    ensures RowsAfter(t, cols, rec, rows).None?
  {
    assert RowStep(t, rec)(rows[i]).None?;
  }

  /** Rows mapped one by one so far. */
  ghost predicate Mapped(t: Table, rec: Recovered, rows: seq<Row>, i: nat, moved: seq<Row>) {
    i <= |rows| && |moved| == i && forall k :: 0 <= k < i ==> MigrateRow(t, rec, rows[k]) == Some(moved[k])
  }

  /** The rows so far are inserted as the specification inserts them. */
  ghost predicate Inserted(t: Table, rec: Recovered, rows: seq<Row>, i: nat, moved: seq<Row>, table: Option<seq<Row>>) {
    Mapped(t, rec, rows, i, moved) && InsertAll(RebuiltKey(t), moved) == table
  }

  lemma MappedNext(t: Table, rec: Recovered, rows: seq<Row>, i: nat, moved: seq<Row>, row: Row)
    requires i < |rows| && Mapped(t, rec, rows, i, moved) && MigrateRow(t, rec, rows[i]) == Some(row)
    ensures Mapped(t, rec, rows, i + 1, moved + [row])
  {
  }

  lemma InsertAppend(key: set<Column>, rows: seq<Row>, row: Row, table: seq<Row>)
    requires InsertAll(key, rows) == Some(table)
    ensures InsertAll(key, rows + [row]) == InsertRow(key, table, row)
  {
    assert (rows + [row])[..|rows|] == rows;
  }

  lemma InsertNext(t: Table, rec: Recovered, rows: seq<Row>, i: nat, moved: seq<Row>, table: seq<Row>, row: Row)
    requires i < |rows| && Inserted(t, rec, rows, i, moved, Some(table)) && MigrateRow(t, rec, rows[i]) == Some(row)
    ensures Inserted(t, rec, rows, i + 1, moved + [row], InsertRow(RebuiltKey(t), table, row))
  {
    MappedNext(t, rec, rows, i, moved, row);
    InsertAppend(RebuiltKey(t), moved, row, table);
  }

  lemma RebuildIs(t: Table, cols: set<Column>, rec: Recovered, rows: seq<Row>, moved: seq<Row>, table: Option<seq<Row>>)
    requires Rebuilt(t) && CSpace !in cols && Inserted(t, rec, rows, |rows|, moved, table)
    ensures RowsAfter(t, cols, rec, rows) == table
  {
    assert forall i :: 0 <= i < |rows| ==> RowStep(t, rec)(rows[i]) == MigrateRow(t, rec, rows[i]);
    assert MapRows(RowStep(t, rec), rows).value == moved;
  }

  lemma RebuildClashes(t: Table, cols: set<Column>, rec: Recovered, rows: seq<Row>, i: nat, moved: seq<Row>)
    requires Rebuilt(t) && CSpace !in cols && Inserted(t, rec, rows, i, moved, None)
    ensures RowsAfter(t, cols, rec, rows).None?
  {
    var mapped := MapRows(RowStep(t, rec), rows);
    assert forall k :: 0 <= k < |rows| ==> RowStep(t, rec)(rows[k]) == MigrateRow(t, rec, rows[k]);
    if mapped.Some? {
      assert mapped.value[..i] == moved;
      InsertFails(RebuiltKey(t), mapped.value, i);
    }
  }

  /** The insert loop.  A row that cannot be patched, or whose key is taken, raises. */
  method Fill(conn: Connection, t: Table, rows: seq<Row>, ghost cols: set<Column>, ghost rec: Recovered)
      returns (ok: bool)
    requires Rebuilt(t) && CSpace !in cols && Lookup(conn.tables, t) == []
    modifies conn`tables
    ensures Only(t, old(conn.tables), conn.tables)
    ensures ok == RowsAfter(t, cols, rec, rows).Some?
    ensures ok ==> Lookup(conn.tables, t) == RowsAfter(t, cols, rec, rows).value
  {
    ghost var moved: seq<Row> := [];
    for i := 0 to |rows|
      invariant Only(t, old(conn.tables), conn.tables)
      invariant Inserted(t, rec, rows, i, moved, Some(Lookup(conn.tables, t)))
    {
      var row := RebuiltRow(t, rows[i]);
      RebuiltRowIs(t, rec, rows[i]);
      if row.None? {
        RebuildFails(t, cols, rec, rows, i);
        return false;
      }
      var inserted := InsertRow(RebuiltKey(t), Lookup(conn.tables, t), row.value);
      InsertNext(t, rec, rows, i, moved, Lookup(conn.tables, t), row.value);
      moved := moved + [row.value];
      if inserted.None? {
        RebuildClashes(t, cols, rec, rows, i + 1, moved);
        return false;
      }
      conn.tables := conn.tables[t := inserted.value];
    }
    RebuildIs(t, cols, rec, rows, moved, Some(Lookup(conn.tables, t)));
    ok := true;
  }

  /** `_recreate_*`: read the old rows, create the table with its wider key, insert them one by one. */
  method Recreate(conn: Connection, t: Table, ghost rec: Recovered) returns (ok: bool)
    requires Rebuilt(t)
    modifies conn`columns, conn`tables
    ensures Moved(t, rec, old(Db(conn.columns, conn.tables)), Db(conn.columns, conn.tables), ok)
  {
    if t !in conn.columns {
      return true;
    }
    if CSpace in conn.columns[t] {
      assert conn.columns == conn.columns[t := conn.columns[t]];
      return true;
    }
    ghost var cols := conn.columns[t];
    var rows := Lookup(conn.tables, t);
    conn.columns := conn.columns[t := ColumnsOf(t)];
    conn.tables := conn.tables[t := []];
    ok := Fill(conn, t, rows, cols, rec);
  }

  /** The values of one INSERT into a recreated table. */
  function RebuiltRow(t: Table, r: Row): Option<Row>
    requires Rebuilt(t)
  {
    var key := map c | c in RebuiltKey(t) :: if c == CSpace then Str(DEFAULT_SPACE) else CellAt(r, c);
    Patched(r, key, if t.TLedger? then PatchLedger(r.json) else PatchFields(r.json, SPACE_ONLY))
  }

  lemma RebuiltRowIs(t: Table, rec: Recovered, r: Row)
    requires Rebuilt(t)
    ensures RebuiltRow(t, r) == MigrateRow(t, rec, r)
  {
    match t
    case TLedger =>
      assert (map c | c in RebuiltKey(t) :: if c == CSpace then Str(DEFAULT_SPACE) else CellAt(r, c)) ==
        map[CSpace := Str(DEFAULT_SPACE), CSubject := CellAt(r, CSubject), CSeq := CellAt(r, CSeq)];
    case TWorldModels =>
      assert (map c | c in RebuiltKey(t) :: if c == CSpace then Str(DEFAULT_SPACE) else CellAt(r, c)) ==
        map[CSpace := Str(DEFAULT_SPACE), CSubject := CellAt(r, CSubject), CVersion := CellAt(r, CVersion)];
    case TCurrentPointer =>
      assert (map c | c in RebuiltKey(t) :: if c == CSpace then Str(DEFAULT_SPACE) else CellAt(r, c)) ==
        map[CSpace := Str(DEFAULT_SPACE), CSubject := CellAt(r, CSubject)];
  }

  // ----- the whole step -----

  ghost predicate Settled(before: Db, t: Table, done: bool, now: Db) {
    && (t in now.columns <==> t in before.columns)
    && (t in before.columns ==>
          now.columns[t] == if done then ColumnsAfter(t, before.columns[t]) else before.columns[t])
    && (if done && t in before.columns then Steps(before, t) == Some(Lookup(now.tables, t))
        else Lookup(now.tables, t) == Lookup(before.tables, t))
  }

  /** Some tables are done, the others are as they were. */
  ghost predicate Progress(before: Db, done: set<Table>, now: Db) {
    forall t: Table :: Settled(before, t, t in done, now)
  }

  ghost predicate SameAt(u: Table, a: Db, b: Db) {
    && (u in a.columns <==> u in b.columns) && (u in a.columns ==> b.columns[u] == a.columns[u])
    && Lookup(b.tables, u) == Lookup(a.tables, u)
  }

  lemma MovedElsewhere(t: Table, rec: Recovered, now: Db, after: Db, u: Table)
    requires Moved(t, rec, now, after, true) && u != t
    ensures SameAt(u, now, after)
  {
  }

  lemma OthersSettled(before: Db, done: bool, now: Db, u: Table, after: Db)
    requires Settled(before, u, done, now) && SameAt(u, now, after)
    ensures Settled(before, u, done, after)
  {
  }

  lemma ThisSettled(before: Db, now: Db, t: Table, after: Db)
    requires Settled(before, t, false, now) && Moved(t, Recover(before.columns, before.tables), now, after, true)
    ensures Settled(before, t, true, after)
  {
  }

  lemma MovedProgress(before: Db, done: set<Table>, now: Db, t: Table, after: Db, ok: bool)
    requires Progress(before, done, now) && t !in done
    requires Moved(t, Recover(before.columns, before.tables), now, after, ok)
    ensures ok ==> Progress(before, done + {t}, after)
    ensures !ok ==> t in before.columns && Steps(before, t).None?
  {
    assert Settled(before, t, false, now);
    if ok {
      forall u: Table ensures Settled(before, u, u in done + {t}, after) {
        assert Settled(before, u, u in done, now);
        if u == t {
          ThisSettled(before, now, t, after);
        } else {
          MovedElsewhere(t, Recover(before.columns, before.tables), now, after, u);
          OthersSettled(before, u in done, now, u, after);
        }
      }
    }
  }

  method MigrateTable(conn: Connection, t: Table, rec: Recovered, ghost before: Db, ghost done: set<Table>)
      returns (ok: bool)
    requires !t.TDependencies? && t !in done
    requires rec == Recover(before.columns, before.tables) && Progress(before, done, Db(conn.columns, conn.tables))
    modifies conn`columns, conn`tables
    ensures ok ==> Progress(before, done + {t}, Db(conn.columns, conn.tables))
    ensures !ok ==> t in before.columns && Steps(before, t).None?
  {
    ghost var now := Db(conn.columns, conn.tables);
    if GainsSpace(t) {
      ok := AddSpaceColumn(conn, t, rec);
    } else if OwnerRecovered(t) {
      ok := MigrateOwned(conn, t, rec);
    } else if Rebuilt(t) {
      ok := Recreate(conn, t, rec);
    } else {
      ok := RewriteTable(conn, t, rec);
    }
    MovedProgress(before, done, now, t, Db(conn.columns, conn.tables), ok);
  }

  /** The connection now holds what the specification makes of the old database. */
  ghost predicate Holds(d: Db, columns: map<Table, set<Column>>, tables: Database) {
    columns == d.columns && forall t: Table :: Lookup(tables, t) == Lookup(d.tables, t)
  }

  lemma StepFails(before: Db, t: Table)
    requires t in before.columns && Steps(before, t).None?
    ensures MigrateV0(before).None?
  {
  }

  lemma AllDone(before: Db, done: set<Table>, now: Db)
    requires forall t: Table :: t in done || t.TDependencies?
    requires before.tables.Keys <= before.columns.Keys && Progress(before, done, now)
    requires TWorldModels in before.columns ==> Readable(Lookup(before.tables, TWorldModels))
    ensures MigrateV0(before).Some? && Holds(MigrateV0(before).value, now.columns, now.tables)
  {
    forall t | t in before.columns
      ensures Steps(before, t) == Some(Lookup(now.tables, t))
      ensures t in now.columns && now.columns[t] == ColumnsAfter(t, before.columns[t])
    {
      assert Settled(before, t, t in done, now);
    }
    forall t | t in now.columns ensures t in before.columns {
      assert Settled(before, t, t in done, now);
    }
    var d := MigrateV0(before).value;
    assert d.columns == now.columns;
    forall t: Table ensures Lookup(now.tables, t) == Lookup(d.tables, t) {
      assert Settled(before, t, t in done, now);
    }
  }

  /** The order in which the step takes the tables. */
  const ORDER: seq<Table> := [TEvidence, TInference, TInquiries, TRecognition, THypotheses, TPredictions,
                              TAnomalies, TProvenance, TWorldModels, TCurrentPointer, TLedger]

  function DoneBy(i: nat): set<Table>
    requires i <= |ORDER|
  {
    set t | t in ORDER[..i]
  }

  lemma DoneNext(i: nat)
    requires i < |ORDER|
    ensures !ORDER[i].TDependencies? && ORDER[i] !in DoneBy(i) && DoneBy(i + 1) == DoneBy(i) + {ORDER[i]}
  {
    assert ORDER[..i + 1] == ORDER[..i] + [ORDER[i]];
  }

  lemma DoneAll()
    ensures DoneBy(0) == {} && forall t: Table :: t in DoneBy(|ORDER|) || t.TDependencies?
  {
    assert ORDER[..|ORDER|] == ORDER;
  }

  /** `_migrate_v0_to_v1`: false is a raised exception. */
  method MigrateV0InPlace(conn: Connection) returns (ok: bool)
    requires conn.tables.Keys <= conn.columns.Keys
    modifies conn`columns, conn`tables
    ensures ok <==> MigrateV0(old(Db(conn.columns, conn.tables))).Some?
    ensures ok ==> Holds(MigrateV0(old(Db(conn.columns, conn.tables))).value, conn.columns, conn.tables)
  {
    ghost var before := Db(conn.columns, conn.tables);
    var read, rec := RecoverOwners(conn);
    if !read {
      return false;
    }
    DoneAll();
    for i := 0 to |ORDER|
      invariant Progress(before, DoneBy(i), Db(conn.columns, conn.tables))
    {
      DoneNext(i);
      ok := MigrateTable(conn, ORDER[i], rec, before, DoneBy(i));
      if !ok {
        StepFails(before, ORDER[i]);
        return;
      }
    }
    AllDone(before, DoneBy(|ORDER|), Db(conn.columns, conn.tables));
    ok := true;
  }

  /** `executescript(schema)`: CREATE TABLE IF NOT EXISTS for every table. */
  method CreateMissing(conn: Connection)
    modifies conn`columns, conn`tables
    ensures forall t: Table :: t in conn.columns
    ensures forall t :: t in old(conn.columns) ==> conn.columns[t] == old(conn.columns[t])
    ensures forall t: Table :: t !in old(conn.columns) ==>
              conn.columns[t] == ColumnsOf(t) && Lookup(conn.tables, t) == []
    ensures forall t :: t in old(conn.columns) ==> Lookup(conn.tables, t) == Lookup(old(conn.tables), t)
  {
    conn.tables := map t | t in conn.tables && t in conn.columns :: conn.tables[t];
    conn.columns := (map t: Table | true :: ColumnsOf(t)) + conn.columns;
  }

  ghost predicate SameRows(a: Database, b: Database) { forall t: Table :: Lookup(b, t) == Lookup(a, t) }

  /** `migrate`: guarded by the stored version.  A current database keeps every row as it is; an old one
      becomes the migrated one; an exception leaves the version behind, so the next start tries again. */
  method Migrate(conn: Connection) returns (ok: bool)
    requires conn.tables.Keys <= conn.columns.Keys
    modifies conn`columns, conn`tables, conn`userVersion
    ensures old(conn.userVersion) >= SCHEMA_VERSION ==>
              ok && conn.userVersion == old(conn.userVersion)
              && SameRows(old(conn.tables), conn.tables)
    ensures old(conn.userVersion) < SCHEMA_VERSION ==>
              && ok == MigrateV0(old(Db(conn.columns, conn.tables))).Some?
              && conn.userVersion == (if ok then SCHEMA_VERSION else old(conn.userVersion))
              && (ok ==> SameRows(MigrateV0(old(Db(conn.columns, conn.tables))).value.tables, conn.tables))
    ensures ok ==> forall t: Table :: t in conn.columns
  {
    if conn.userVersion >= SCHEMA_VERSION {
      CreateMissing(conn);
      return true;
    }
    ok := MigrateV0InPlace(conn);
    if !ok {
      return;
    }
    CreateMissing(conn);
    conn.userVersion := SCHEMA_VERSION;
  }
}
