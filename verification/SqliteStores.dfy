/** The SQLite stores: methods over one shared connection. */
module SqliteStores {
  import opened Domain
  import opened Tables
  import opened Containers
  import opened Ledger
  import opened Sql
  import opened Ports
  import opened Refinement
  import opened Backends

  /** One database.  A table exists when its columns are known; rows are in rowid order. */
  class Connection {
    var columns: map<Table, set<Column>>
    var tables: Database
    var userVersion: nat

    constructor ()
      ensures columns == map[] && tables == map[] && userVersion == 0
    {
      columns, tables, userVersion := map[], map[], 0;
    }

    /** INSERT, with ON CONFLICT where the table has it; false is an IntegrityError. */
    method Insert(t: Table, r: Row) returns (ok: bool)
      modifies this`tables
      ensures var w := WriteRow(SqlKind(t), Lookup(old(tables), t), r);
              ok == w.Some? && tables == if ok then old(tables)[t := w.value] else old(tables)
    {
      var w := WriteRow(SqlKind(t), Lookup(tables, t), r);
      if w.None? {
        return false;
      }
      tables := tables[t := w.value];
      ok := true;
    }
  }

  class SqliteEvidenceStore {
    const conn: Connection

    constructor (conn: Connection)
      ensures this.conn == conn
    {
      this.conn := conn;
    }

    method Add(record: Value) returns (ok: bool)
      modifies conn`tables
      ensures (conn.tables, ok) == SqlStep(old(conn.tables), Record(TEvidence, record))
      ensures Carries(old(conn.tables), Record(TEvidence, record), conn.tables, ok)
    {
      StepCarries(conn.tables, Record(TEvidence, record));
      ok := conn.Insert(TEvidence, RowFor(ColumnsOf(TEvidence), record));
    }

    method GetById(id: string) returns (a: Answer)
      ensures a == SqlAnswer(conn.tables, GetOne(TEvidence, map[CId := id]))
      ensures Answers(conn.tables, GetOne(TEvidence, map[CId := id]), a)
    {
      AnswerIsMemorys(conn.tables, GetOne(TEvidence, map[CId := id]));
      a := LoadRow(SelectRows(Lookup(conn.tables, TEvidence), map[CId := id]), 0);
    }

    method ListForScope(s: Scope) returns (a: Answer)
      ensures a == SqlAnswer(conn.tables, ListAll(TEvidence, ScopeCond(s)))
      ensures Answers(conn.tables, ListAll(TEvidence, ScopeCond(s)), a)
    {
      AnswerIsMemorys(conn.tables, ListAll(TEvidence, ScopeCond(s)));
      a := LoadMany(SelectRows(Lookup(conn.tables, TEvidence), ScopeCond(s)));
    }
  }

  lemma GroupRowsAppend(rows: seq<Row>, c: Column, key: Value, r: Row)
    ensures GroupRows(rows + [r], c, key) == GroupRows(rows, c, key) + if CellAt(r, c) == key then [r] else []
  {
    assert (rows + [r])[..|rows|] == rows;
  }

  /** The loop's locals after some rows: keys in first-seen order, the object of each key's last row. */
  ghost predicate RowsNoted(rows: seq<Row>, c: Column, order: seq<Value>, latest: map<Value, Value>) {
    && order == FirstSeenRows(rows, c)
    && (forall k :: k in latest <==> k in order)
    && (forall k :: k in latest ==> Noted(GroupRows(rows, c, k), latest[k]))
  }

  ghost predicate Noted(g: seq<Row>, v: Value) { g != [] && Load(g[|g| - 1].json) == Some(v) }

  lemma NoteRow(rows: seq<Row>, c: Column, order: seq<Value>, latest: map<Value, Value>, r: Row, v: Value)
    requires RowsNoted(rows, c, order, latest) && Load(r.json) == Some(v)
    ensures var k := CellAt(r, c);
            RowsNoted(rows + [r], c, if k in latest then order else order + [k], latest[k := v])
  {
    FirstSeenRowsAppend(rows, c, r);
    forall k | k in latest[CellAt(r, c) := v]
      ensures Noted(GroupRows(rows + [r], c, k), latest[CellAt(r, c) := v][k])
    {
      NoteRowAt(rows, c, latest, r, v, k);
    }
  }

  lemma FirstSeenRowsAppend(rows: seq<Row>, c: Column, r: Row)
    ensures var order, k := FirstSeenRows(rows, c), CellAt(r, c);
            FirstSeenRows(rows + [r], c) == if k in order then order else order + [k]
  {
    assert (rows + [r])[..|rows|] == rows;
  }

  lemma NoteRowAt(rows: seq<Row>, c: Column, latest: map<Value, Value>, r: Row, v: Value, k: Value)
    requires k in latest ==> Noted(GroupRows(rows, c, k), latest[k])
    requires (k in latest || k == CellAt(r, c)) && Load(r.json) == Some(v)
    ensures Noted(GroupRows(rows + [r], c, k), latest[CellAt(r, c) := v][k])
  {
    GroupRowsAppend(rows, c, k, r);
  }

  lemma NoteNextRow(rows: seq<Row>, c: Column, order: seq<Value>, latest: map<Value, Value>, i: nat, v: Value)
    requires i < |rows| && RowsNoted(rows[..i], c, order, latest) && Load(rows[i].json) == Some(v)
    ensures var k := CellAt(rows[i], c);
            RowsNoted(rows[..i + 1], c, if k in latest then order else order + [k], latest[k := v])
  {
    var init := rows[..i];
    assert init + [rows[i]] == rows[..i + 1];
    NoteRow(init, c, order, latest, rows[i], v);
  }

  lemma {:induction false} LoadEach(rows: seq<Row>, s: seq<Value>)
    requires |rows| == |s| && forall i :: 0 <= i < |rows| ==> Load(rows[i].json) == Some(s[i])
    ensures LoadAll(rows) == Some(s)
  {
    if rows != [] {
      LoadEach(rows[..|rows| - 1], s[..|s| - 1]);
      assert s == s[..|s| - 1] + [s[|s| - 1]];
    }
  }

  lemma LoadAllPrefix(rows: seq<Row>, i: nat)
    requires i < |rows|
    ensures LoadAll(rows[..i + 1]).Some? <==> LoadAll(rows[..i]).Some? && Load(rows[i].json).Some?
  {
    assert rows[..i + 1][..i] == rows[..i];
  }

  lemma {:induction false} LoadAllFails(rows: seq<Row>, i: nat)
    requires i <= |rows| && LoadAll(rows[..i]).None?
    ensures LoadAll(rows).None?
    decreases |rows| - i
  {
    if i == |rows| {
      assert rows[..i] == rows;
    } else {
      LoadAllPrefix(rows, i);
      LoadAllFails(rows, i + 1);
    }
  }

  lemma NotedAnswer(rows: seq<Row>, c: Column, order: seq<Value>, latest: map<Value, Value>, s: seq<Value>)
    requires RowsNoted(rows, c, order, latest)
    requires |s| == |order| && forall i :: 0 <= i < |order| ==> s[i] == latest[order[i]]
    ensures LoadAll(LatestRows(rows, c)) == Some(s)
  {
    forall i | 0 <= i < |order| ensures Load(LatestRows(rows, c)[i].json) == Some(s[i]) {
      assert Noted(GroupRows(rows, c, order[i]), latest[order[i]]);
    }
    LoadEach(LatestRows(rows, c), s);
  }

  class SqliteHypothesisRepository {
    const conn: Connection

    constructor (conn: Connection)
      ensures this.conn == conn
    {
      this.conn := conn;
    }

    method Add(hypothesis: Value)
      modifies conn`tables
      ensures conn.tables == SqlStep(old(conn.tables), Record(THypotheses, hypothesis)).0
      ensures Carries(old(conn.tables), Record(THypotheses, hypothesis), conn.tables, true)
    {
      StepCarries(conn.tables, Record(THypotheses, hypothesis));
      var _ := conn.Insert(THypotheses, RowFor(ColumnsOf(THypotheses), hypothesis));
    }

    /** ORDER BY seq DESC LIMIT 1: the newest row of the record id. */
    method GetRecord(recordId: string, space: string) returns (a: Answer)
      ensures a == SqlAnswer(conn.tables, GetOne(THypotheses, map[CRecordId := recordId, CSpace := space]))
      ensures Answers(conn.tables, GetOne(THypotheses, map[CRecordId := recordId, CSpace := space]), a)
    {
      AnswerIsMemorys(conn.tables, GetOne(THypotheses, map[CRecordId := recordId, CSpace := space]));
      var rows := SelectRows(Lookup(conn.tables, THypotheses), map[CRecordId := recordId, CSpace := space]);
      a := LoadRow(rows, |rows| - 1);
    }

    method Latest(hypothesisId: string, s: Scope) returns (a: Answer)
      ensures a == SqlAnswer(conn.tables, Newest(THypotheses, ScopeCond(s)[CHypothesisId := hypothesisId]))
      ensures Answers(conn.tables, Newest(THypotheses, ScopeCond(s)[CHypothesisId := hypothesisId]), a)
    {
      AnswerIsMemorys(conn.tables, Newest(THypotheses, ScopeCond(s)[CHypothesisId := hypothesisId]));
      var rows := SelectRows(Lookup(conn.tables, THypotheses), ScopeCond(s)[CHypothesisId := hypothesisId]);
      a := LoadRow(rows, |rows| - 1);
    }

    method Lineage(hypothesisId: string, s: Scope) returns (a: Answer)
      ensures a == SqlAnswer(conn.tables, ListAll(THypotheses, ScopeCond(s)[CHypothesisId := hypothesisId]))
      ensures Answers(conn.tables, ListAll(THypotheses, ScopeCond(s)[CHypothesisId := hypothesisId]), a)
    {
      AnswerIsMemorys(conn.tables, ListAll(THypotheses, ScopeCond(s)[CHypothesisId := hypothesisId]));
      a := LoadMany(SelectRows(Lookup(conn.tables, THypotheses), ScopeCond(s)[CHypothesisId := hypothesisId]));
    }

    /** One pass over the scope's rows, keyed by the column, valued by the decoded blob. */
    method LatestOf(rows: seq<Row>) returns (a: Answer)
      ensures a == if LoadAll(rows).Some? then LoadMany(LatestRows(rows, CHypothesisId)) else Raises
    {
      var latest: map<Value, Value> := map[];
      var order: seq<Value> := [];
      for i := 0 to |rows|
        invariant LoadAll(rows[..i]).Some?
        invariant RowsNoted(rows[..i], CHypothesisId, order, latest)
      {
        var hid, v := CellAt(rows[i], CHypothesisId), Load(rows[i].json);
        LoadAllPrefix(rows, i);
        if v.None? {
          LoadAllFails(rows, i + 1);
          return Raises;
        }
        NoteNextRow(rows, CHypothesisId, order, latest, i, v.value);
        if hid !in latest {
          order := order + [hid];
        }
        latest := latest[hid := v.value];
      }
      assert rows[..|rows|] == rows;
      var listed := seq(|order|, i requires 0 <= i < |order| => latest[order[i]]);
      NotedAnswer(rows, CHypothesisId, order, latest, listed);
      a := Many(listed);
    }

    method ListForSubject(s: Scope) returns (a: Answer)
      ensures a == SqlAnswer(conn.tables, ListLatest(THypotheses, s, CHypothesisId))
      ensures Answers(conn.tables, ListLatest(THypotheses, s, CHypothesisId), a)
    {
      AnswerIsMemorys(conn.tables, ListLatest(THypotheses, s, CHypothesisId));
      a := LatestOf(SelectRows(Lookup(conn.tables, THypotheses), ScopeCond(s)));
    }
  }

  class SqlitePredictionRepository {
    const conn: Connection

    constructor (conn: Connection)
      ensures this.conn == conn
    {
      this.conn := conn;
    }

    method Add(prediction: Value)
      modifies conn`tables
      ensures conn.tables == SqlStep(old(conn.tables), Record(TPredictions, prediction)).0
      ensures Carries(old(conn.tables), Record(TPredictions, prediction), conn.tables, true)
    {
      StepCarries(conn.tables, Record(TPredictions, prediction));
      var _ := conn.Insert(TPredictions, RowFor(ColumnsOf(TPredictions), prediction));
    }

    method GetById(id: string) returns (a: Answer)
      ensures a == SqlAnswer(conn.tables, GetOne(TPredictions, map[CId := id]))
      ensures Answers(conn.tables, GetOne(TPredictions, map[CId := id]), a)
    {
      AnswerIsMemorys(conn.tables, GetOne(TPredictions, map[CId := id]));
      var rows := SelectRows(Lookup(conn.tables, TPredictions), map[CId := id]);
      a := LoadRow(rows, |rows| - 1);
    }

    method ListForScope(s: Scope) returns (a: Answer)
      ensures a == SqlAnswer(conn.tables, ListAll(TPredictions, ScopeCond(s)))
      ensures Answers(conn.tables, ListAll(TPredictions, ScopeCond(s)), a)
    {
      AnswerIsMemorys(conn.tables, ListAll(TPredictions, ScopeCond(s)));
      a := LoadMany(SelectRows(Lookup(conn.tables, TPredictions), ScopeCond(s)));
    }
  }

  class SqliteRevisionLedgerStore {
    const conn: Connection

    constructor (conn: Connection)
      ensures this.conn == conn
    {
      this.conn := conn;
    }

    /** Numbers the entry by COUNT(*).  The result is `None` for a refused event; `clash` is an
        IntegrityError on the insert, which no ledger written by this method can meet. */
    method AppendEvent(event: Value, ghost books: Books) returns (entry: Option<Value>, clash: bool)
      requires HasScope(event)
      modifies conn`tables
      ensures conn.tables == SqlStep(old(conn.tables), Log(event)).0
      ensures entry.Some? <==> SqlStep(old(conn.tables), Log(event)).1
      ensures LedgerSim(books, Lookup(old(conn.tables), TLedger), ScopeOf(event)) ==>
                !clash && entry == if Committed(event)
                                   then Some(MakeEntry(|Lookup(books, ScopeOf(event))|, event)) else None
      ensures Carries(old(conn.tables), Log(event), conn.tables, entry.Some?)
    {
      StepCarries(conn.tables, Log(event));
      clash := false;
      if !Committed(event) {
        return None, false;
      }
      if LedgerSim(books, Lookup(conn.tables, TLedger), ScopeOf(event)) {
        CountIsUnused(books, Lookup(conn.tables, TLedger), event);
      }
      var count := |SelectRows(Lookup(conn.tables, TLedger), ScopeCond(ScopeOf(event)))|;
      var e := MakeEntry(count, event);
      var ok := conn.Insert(TLedger, EntryRow(e));
      if ok {
        entry := Some(e);
      } else {
        entry, clash := None, true;
      }
    }

    method ReadSince(s: Scope, after: int) returns (a: Answer)
      ensures a == SqlAnswer(conn.tables, Query.ReadSince(s, after))
      ensures Answers(conn.tables, Query.ReadSince(s, after), a)
    {
      AnswerIsMemorys(conn.tables, Query.ReadSince(s, after));
      a := LoadMany(OrderBySeq(AboveRows(SelectRows(Lookup(conn.tables, TLedger), ScopeCond(s)), after)));
    }

    method ReadAll(s: Scope) returns (a: Answer)
      ensures a == SqlAnswer(conn.tables, ReadLedger(s))
      ensures Answers(conn.tables, ReadLedger(s), a)
    {
      AnswerIsMemorys(conn.tables, ReadLedger(s));
      a := LoadMany(OrderBySeq(SelectRows(Lookup(conn.tables, TLedger), ScopeCond(s))));
    }
  }

  class SqliteWorldModelRepository {
    const conn: Connection

    constructor (conn: Connection)
      ensures this.conn == conn
    {
      this.conn := conn;
    }

    method AppendVersion(model: Value) returns (ok: bool)
      modifies conn`tables
      ensures (conn.tables, ok) == SqlStep(old(conn.tables), Record(TWorldModels, model))
      ensures Carries(old(conn.tables), Record(TWorldModels, model), conn.tables, ok)
    {
      StepCarries(conn.tables, Record(TWorldModels, model));
      ok := conn.Insert(TWorldModels, RowFor(ColumnsOf(TWorldModels), model));
    }

    method SetCurrentPointer(pointer: Value)
      modifies conn`tables
      ensures conn.tables == SqlStep(old(conn.tables), Record(TCurrentPointer, pointer)).0
      ensures Carries(old(conn.tables), Record(TCurrentPointer, pointer), conn.tables, true)
    {
      StepCarries(conn.tables, Record(TCurrentPointer, pointer));
      var _ := conn.Insert(TCurrentPointer, RowFor(ColumnsOf(TCurrentPointer), pointer));
    }

    method GetVersion(s: Scope, version: string) returns (a: Answer)
      ensures a == SqlAnswer(conn.tables, GetOne(TWorldModels, ScopeCond(s)[CVersion := version]))
      ensures Answers(conn.tables, GetOne(TWorldModels, ScopeCond(s)[CVersion := version]), a)
    {
      AnswerIsMemorys(conn.tables, GetOne(TWorldModels, ScopeCond(s)[CVersion := version]));
      a := LoadRow(SelectRows(Lookup(conn.tables, TWorldModels), ScopeCond(s)[CVersion := version]), 0);
    }

    method GetCurrentPointer(s: Scope) returns (a: Answer)
      ensures a == SqlAnswer(conn.tables, GetOne(TCurrentPointer, ScopeCond(s)))
      ensures Answers(conn.tables, GetOne(TCurrentPointer, ScopeCond(s)), a)
    {
      AnswerIsMemorys(conn.tables, GetOne(TCurrentPointer, ScopeCond(s)));
      a := LoadRow(SelectRows(Lookup(conn.tables, TCurrentPointer), ScopeCond(s)), 0);
    }

    /** Through the pointer to the version it names; a pointer that does not load raises. */
    method GetCurrentModel(s: Scope) returns (a: Answer)
      ensures Answers(conn.tables, CurrentModel(s), a)
    {
      AnswerIsMemorys(conn.tables, CurrentModel(s));
      a := GetCurrentPointer(s);
      if a.One? && a.r.Some? {
        var version := Get(a.r.value, ModelVersionId);
        a := LoadRow(GroupRows(SelectRows(Lookup(conn.tables, TWorldModels), ScopeCond(s)), CVersion, version), 0);
      }
    }
  }

  class SqliteReasoningStore {
    const conn: Connection

    constructor (conn: Connection)
      ensures this.conn == conn
    {
      this.conn := conn;
    }

    /** DELETE FROM every table: the next run starts where a fresh database starts. */
    method Reset()
      modifies conn`tables
      ensures conn.tables.Keys == old(conn.tables.Keys)
      ensures forall t :: Lookup(conn.tables, t) == []
      ensures Sim(EMPTY_MEMORY, conn.tables) && KeysUnique(EMPTY_MEMORY)
    {
      conn.tables := map t | t in conn.tables :: [];
      EmptySimulates(conn.tables);
    }
  }
}
