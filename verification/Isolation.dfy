/** A write owned by one (space, subject) is invisible to every scoped query of another. */
module Isolation {
  import opened Domain
  import opened Tables
  import opened Containers
  import opened Ledger
  import opened Sql
  import opened Ports
  import opened Refinement
  import opened Divergence

  ghost predicate ScopedCond(cond: Cond, s: Scope) {
    CSpace in cond && CSubject in cond && cond[CSpace] == s.space && cond[CSubject] == s.subject
  }

  /** The shared queries that name a scope. */
  ghost predicate ScopedTo(q: Query, s: Scope) {
    IsQuery(q) &&
    match q
    case GetOne(_, cond) => ScopedCond(cond, s)
    case Newest(_, cond) => ScopedCond(cond, s)
    case ListAll(_, cond) => ScopedCond(cond, s)
    case ListLatest(_, scope, _) => scope == s
    case ReadLedger(scope) => scope == s
    case ReadSince(scope, _) => scope == s
    case CurrentModel(scope) => scope == s
  }

  /** The condition names another space or another subject. */
  ghost predicate OtherCond(cond: Cond, a: Scope) {
    (CSpace in cond && cond[CSpace] != a.space) || (CSubject in cond && cond[CSubject] != a.subject)
  }

  /** The query names another space or another subject, in whatever combination it names them. */
  ghost predicate NamesOther(q: Query, a: Scope) {
    IsQuery(q) &&
    match q
    case GetOne(_, cond) => OtherCond(cond, a)
    case Newest(_, cond) => OtherCond(cond, a)
    case ListAll(_, cond) => OtherCond(cond, a)
    case ListLatest(_, scope, _) => scope != a
    case ReadLedger(scope) => scope != a
    case ReadSince(scope, _) => scope != a
    case CurrentModel(scope) => scope != a
  }

  lemma ScopedNamesOther(q: Query, a: Scope, b: Scope)
    requires ScopedTo(q, b) && a != b
    ensures NamesOther(q, a)
  {
  }

  ghost predicate OwnedOp(op: Op, s: Scope) {
    IsOp(op) &&
    match op
    case Record(_, v) => OwnedBy(v, s)
    case Log(event) => OwnedBy(event, s)
  }

  lemma OtherScope(v: Value, a: Scope, cond: Cond)
    requires OwnedBy(v, a) && OtherCond(cond, a)
    ensures !Matches(v, cond)
  {
    if CSpace in cond && cond[CSpace] != a.space {
      assert Get(v, FieldOf(CSpace)) != Str(cond[CSpace]);
    } else {
      assert Get(v, FieldOf(CSubject)) != Str(cond[CSubject]);
    }
  }

  lemma {:induction false} PutElsewhere(s: seq<Value>, key: set<Column>, v: Value, cond: Cond)
    requires !Matches(v, cond) && forall x :: x in s && SameKey(key, x, v) ==> !Matches(x, cond)
    ensures Select(Put(s, key, v), cond) == Select(s, cond)
  {
    if s == [] {
      assert Put(s, key, v) == [v];
      SelectCons(v, [], cond);
      assert [v] + [] == [v];
    } else {
      assert [s[0]] + s[1..] == s;
      SelectCons(s[0], s[1..], cond);
      if SameKey(key, s[0], v) {
        SelectCons(v, s[1..], cond);
      } else {
        PutElsewhere(s[1..], key, v, cond);
        SelectCons(s[0], Put(s[1..], key, v), cond);
      }
    }
  }

  /** The only write that can reach into another scope in memory is one that replaces a prediction
      stored there under the same id. */
  ghost predicate TakesPredictionFrom(m: Memory, op: Op, s: Scope) {
    op.Record? && op.t.TPredictions? &&
    exists x :: x in Lookup(m.recs, TPredictions) && SameKey({CId}, x, op.v) && OwnedBy(x, s)
  }

  /** The same for whatever predictions a query selects. */
  ghost predicate TakesSelected(m: Memory, op: Op, q: Query) {
    op.Record? && op.t.TPredictions? && q.ListAll? && q.t.TPredictions? &&
    exists x :: x in Lookup(m.recs, TPredictions) && SameKey({CId}, x, op.v) && Matches(x, q.cond)
  }

  lemma MatchesOwner(x: Value, cond: Cond, s: Scope)
    requires ScopedCond(cond, s) && Matches(x, cond)
    ensures OwnedBy(x, s)
  {
    assert Get(x, FieldOf(CSpace)) == Str(s.space) && Get(x, FieldOf(CSubject)) == Str(s.subject);
  }

  lemma NotSelected(m: Memory, op: Op, q: Query, s: Scope)
    requires ScopedTo(q, s) && !TakesPredictionFrom(m, op, s)
    ensures !TakesSelected(m, op, q)
  {
    if TakesSelected(m, op, q) {
      var x :| x in Lookup(m.recs, TPredictions) && SameKey({CId}, x, op.v) && Matches(x, q.cond);
      MatchesOwner(x, q.cond, s);
    }
  }

  lemma RecordElsewhere(m: Memory, t: Table, v: Value, a: Scope, cond: Cond)
    requires !t.TLedger? && OwnedBy(v, a) && OtherCond(cond, a)
    requires t.TPredictions? ==> forall x :: x in Lookup(m.recs, t) && SameKey({CId}, x, v) ==> !Matches(x, cond)
    requires {CSpace, CSubject} <= ColumnsOf(t)
    ensures Select(Lookup(MemoryStep(m, Record(t, v)).0.recs, t), cond) == Select(Lookup(m.recs, t), cond)
  {
    var s := Lookup(m.recs, t);
    OtherScope(v, a, cond);
    match MemoryKind(t)
    case InsertOnly(_) => SelectAppend(s, v, cond);
    case Append => SelectAppend(s, v, cond);
    case Upsert(key) =>
      if t.TCurrentPointer? {
        forall x | x in s && SameKey(key, x, v) ensures !Matches(x, cond) {
          SamePointerScope(x, v, a);
          OtherScope(x, a, cond);
        }
      }
      PutElsewhere(s, key, v, cond);
  }

  lemma SamePointerScope(x: Value, v: Value, a: Scope)
    requires OwnedBy(v, a) && SameKey({CSpace, CSubject}, x, v)
    ensures OwnedBy(x, a)
  {
    assert Get(x, FieldOf(CSpace)) == Get(v, FieldOf(CSpace)) && Get(x, FieldOf(CSubject)) == Get(v, FieldOf(CSubject));
  }

  lemma TableElsewhere(m: Memory, op: Op, a: Scope, t: Table, cond: Cond)
    requires OwnedOp(op, a) && OtherCond(cond, a) && !t.TLedger? && {CSpace, CSubject} <= ColumnsOf(t)
    requires op.Record? && op.t.TPredictions? && t.TPredictions? ==>
               forall x :: x in Lookup(m.recs, t) && SameKey({CId}, x, op.v) ==> !Matches(x, cond)
    ensures Select(Lookup(MemoryStep(m, op).0.recs, t), cond) == Select(Lookup(m.recs, t), cond)
  {
    if op.Record? && op.t == t {
      RecordElsewhere(m, t, op.v, a, cond);
    }
  }

  lemma ScopeElsewhere(m: Memory, op: Op, a: Scope, t: Table, s: Scope)
    requires OwnedOp(op, a) && s != a && {CSpace, CSubject} <= ColumnsOf(t) && !t.TPredictions? && !t.TLedger?
    ensures Select(Lookup(MemoryStep(m, op).0.recs, t), ScopeCond(s)) == Select(Lookup(m.recs, t), ScopeCond(s))
  {
    TableElsewhere(m, op, a, t, ScopeCond(s));
  }

  /** In memory: no answer about another space or another subject changes, unless the write takes over
      a prediction the query selects. */
  lemma MemoryElsewhere(m: Memory, op: Op, a: Scope, q: Query)
    requires OwnedOp(op, a) && NamesOther(q, a) && !TakesSelected(m, op, q)
    ensures MemoryAnswer(MemoryStep(m, op).0, q) == MemoryAnswer(m, q)
  {
    match q
    case GetOne(t, cond) => TableElsewhere(m, op, a, t, cond);
    case Newest(t, cond) => TableElsewhere(m, op, a, t, cond);
    case ListAll(t, cond) => TableElsewhere(m, op, a, t, cond);
    case ListLatest(t, scope, _) => ScopeElsewhere(m, op, a, t, scope);
    case CurrentModel(scope) =>
      ScopeElsewhere(m, op, a, TCurrentPointer, scope);
      ScopeElsewhere(m, op, a, TWorldModels, scope);
    case _ =>
  }

  /** What is owned by one (space, subject) is out of reach of every scoped query of another. */
  lemma MemoryIsolation(m: Memory, op: Op, a: Scope, b: Scope, q: Query)
    requires OwnedOp(op, a) && a != b && ScopedTo(q, b) && !TakesPredictionFrom(m, op, b)
    ensures MemoryAnswer(MemoryStep(m, op).0, q) == MemoryAnswer(m, q)
  {
    ScopedNamesOther(q, a, b);
    NotSelected(m, op, q, b);
    MemoryElsewhere(m, op, a, q);
  }

  /** A record id is looked up within a space only, so there it is isolated from other spaces. */
  lemma RecordIsolation(m: Memory, db: Database, op: Op, a: Scope, recordId: string, space: string)
    requires OwnedOp(op, a) && a.space != space
    ensures var q := GetOne(THypotheses, map[CRecordId := recordId, CSpace := space]);
            && MemoryAnswer(MemoryStep(m, op).0, q) == MemoryAnswer(m, q)
            && SqlAnswer(SqlStep(db, op).0, q) == SqlAnswer(db, q)
  {
    var q := GetOne(THypotheses, map[CRecordId := recordId, CSpace := space]);
    MemoryElsewhere(m, op, a, q);
    SqlNamesOther(db, op, a, q);
  }

  lemma TakeoverShortens(s: seq<Value>, v: Value, a: Scope, b: Scope, x: Value)
    requires OwnedBy(v, a) && a != b && UniqueBy(s, {CId})
    requires x in s && SameKey({CId}, x, v) && OwnedBy(x, b)
    ensures |Select(Put(s, {CId}, v), ScopeCond(b))| < |Select(s, ScopeCond(b))|
  {
    var j :| 0 <= j < |s| && s[j] == x;
    var i := FirstSameKey(s, {CId}, v, j);
    assert SameKey({CId}, s[i], x);
    OtherScope(v, a, ScopeCond(b));
    assert Matches(s[i], ScopeCond(b));
    ListedOnce(s, v, i, ScopeCond(b));
  }

  /** And the exception is real: taking over a prediction always shortens its owner's listing. */
  lemma TakeoverIsSeen(m: Memory, v: Value, a: Scope, b: Scope)
    requires OwnedBy(v, a) && a != b
    requires UniqueBy(Lookup(m.recs, TPredictions), {CId})
    ensures MemoryAnswer(MemoryStep(m, Record(TPredictions, v)).0, ListAll(TPredictions, ScopeCond(b)))
         == MemoryAnswer(m, ListAll(TPredictions, ScopeCond(b)))
       <==> !TakesPredictionFrom(m, Record(TPredictions, v), b)
  {
    if TakesPredictionFrom(m, Record(TPredictions, v), b) {
      var x :| x in Lookup(m.recs, TPredictions) && SameKey({CId}, x, v) && OwnedBy(x, b);
      TakeoverShortens(Lookup(m.recs, TPredictions), v, a, b, x);
      MemoryLists(m, v, ScopeCond(b));
    } else {
      MemoryIsolation(m, Record(TPredictions, v), a, b, ListAll(TPredictions, ScopeCond(b)));
    }
  }

  lemma {:induction false} SelectRowsCons(x: Row, rows: seq<Row>, cond: Cond)
    ensures SelectRows([x] + rows, cond) == (if RowMatches(x, cond) then [x] else []) + SelectRows(rows, cond)
    decreases |rows|
  {
    if rows == [] {
      assert [x] + rows == [] + [x];
      SelectRowsAppend([], x, cond);
    } else {
      var n := |rows| - 1;
      var init, last := rows[..n], rows[n];
      var first, end := if RowMatches(x, cond) then [x] else [], if RowMatches(last, cond) then [last] else [];
      SelectRowsCons(x, init, cond);
      assert [x] + rows == ([x] + init) + [last] && rows == init + [last];
      SelectRowsAppend([x] + init, last, cond);
      SelectRowsAppend(init, last, cond);
      Associates(first, SelectRows(init, cond), end);
    }
  }

  lemma {:induction false} PutRowElsewhere(rows: seq<Row>, key: set<Column>, r: Row, a: Scope, cond: Cond)
    requires {CSpace, CSubject} <= key && OtherCond(cond, a)
    requires CellAt(r, CSpace) == Str(a.space) && CellAt(r, CSubject) == Str(a.subject)
    ensures SelectRows(PutRow(rows, key, r), cond) == SelectRows(rows, cond)
  {
    OtherRow(r, a, cond);
    if rows == [] {
      assert PutRow(rows, key, r) == [r];
      SelectRowsCons(r, [], cond);
      assert [r] + [] == [r];
    } else {
      assert [rows[0]] + rows[1..] == rows;
      SelectRowsCons(rows[0], rows[1..], cond);
      if SameCells(key, rows[0], r) {
        var put := rows[0].(json := r.json);
        assert CellAt(rows[0], CSpace) == CellAt(r, CSpace) && CellAt(rows[0], CSubject) == CellAt(r, CSubject);
        OtherRow(rows[0], a, cond);
        OtherRow(put, a, cond);
        SelectRowsCons(put, rows[1..], cond);
      } else {
        PutRowElsewhere(rows[1..], key, r, a, cond);
        SelectRowsCons(rows[0], PutRow(rows[1..], key, r), cond);
      }
    }
  }

  lemma OtherRow(r: Row, a: Scope, cond: Cond)
    requires CellAt(r, CSpace) == Str(a.space) && CellAt(r, CSubject) == Str(a.subject) && OtherCond(cond, a)
    ensures !RowMatches(r, cond)
  {
    if CSpace in cond && cond[CSpace] != a.space {
      assert CellAt(r, CSpace) != Str(cond[CSpace]);
    } else {
      assert CellAt(r, CSubject) != Str(cond[CSubject]);
    }
  }

  lemma WriteRowElsewhere(t: Table, rows: seq<Row>, r: Row, a: Scope, cond: Cond)
    requires {CSpace, CSubject} <= ColumnsOf(t) && OtherCond(cond, a)
    requires CellAt(r, CSpace) == Str(a.space) && CellAt(r, CSubject) == Str(a.subject)
    ensures var w := WriteRow(SqlKind(t), rows, r);
            w.Some? ==> SelectRows(w.value, cond) == SelectRows(rows, cond)
  {
    OtherRow(r, a, cond);
    match SqlKind(t)
    case Upsert(key) => PutRowElsewhere(rows, key, r, a, cond);
    case _ => SelectRowsAppend(rows, r, cond);
  }

  lemma CellsAreOwned(t: Table, v: Value)
    requires {CSpace, CSubject} <= ColumnsOf(t)
    ensures CellAt(RowFor(ColumnsOf(t), v), CSpace) == Get(v, SpaceId)
    ensures CellAt(RowFor(ColumnsOf(t), v), CSubject) == Get(v, SubjectId)
  {
  }

  lemma EntryCellsAreOwned(n: nat, event: Value)
    ensures CellAt(EntryRow(MakeEntry(n, event)), CSpace) == Get(event, SpaceId)
    ensures CellAt(EntryRow(MakeEntry(n, event)), CSubject) == Get(event, SubjectId)
  {
  }

  lemma SqlElsewhere(db: Database, op: Op, a: Scope, t: Table, cond: Cond)
    requires OwnedOp(op, a) && OtherCond(cond, a) && {CSpace, CSubject} <= ColumnsOf(t)
    ensures SelectRows(Lookup(SqlStep(db, op).0, t), cond) == SelectRows(Lookup(db, t), cond)
  {
    match op
    case Record(u, v) =>
      if u == t {
        CellsAreOwned(t, v);
        WriteRowElsewhere(t, Lookup(db, t), RowFor(ColumnsOf(t), v), a, cond);
      }
    case Log(event) =>
      if t.TLedger? && Committed(event) {
        var n := |SelectRows(Lookup(db, TLedger), ScopeCond(ScopeOf(event)))|;
        EntryCellsAreOwned(n, event);
        WriteRowElsewhere(t, Lookup(db, t), EntryRow(MakeEntry(n, event)), a, cond);
      }
  }

  lemma SqlScopeElsewhere(db: Database, op: Op, a: Scope, t: Table, s: Scope)
    requires OwnedOp(op, a) && s != a && {CSpace, CSubject} <= ColumnsOf(t)
    ensures SelectRows(Lookup(SqlStep(db, op).0, t), ScopeCond(s)) == SelectRows(Lookup(db, t), ScopeCond(s))
  {
    SqlElsewhere(db, op, a, t, ScopeCond(s));
  }

  lemma SqlModelElsewhere(db: Database, op: Op, a: Scope, s: Scope)
    requires OwnedOp(op, a) && s != a
    ensures SqlAnswer(SqlStep(db, op).0, CurrentModel(s)) == SqlAnswer(db, CurrentModel(s))
  {
    SqlScopeElsewhere(db, op, a, TCurrentPointer, s);
    SqlScopeElsewhere(db, op, a, TWorldModels, s);
  }

  lemma SqlNamesOther(db: Database, op: Op, a: Scope, q: Query)
    requires OwnedOp(op, a) && NamesOther(q, a)
    ensures SqlAnswer(SqlStep(db, op).0, q) == SqlAnswer(db, q)
  {
    match q
    case GetOne(t, cond) => SqlElsewhere(db, op, a, t, cond);
    case Newest(t, cond) => SqlElsewhere(db, op, a, t, cond);
    case ListAll(t, cond) => SqlElsewhere(db, op, a, t, cond);
    case ListLatest(t, scope, _) => SqlScopeElsewhere(db, op, a, t, scope);
    case ReadLedger(scope) => SqlScopeElsewhere(db, op, a, TLedger, scope);
    case ReadSince(scope, _) => SqlScopeElsewhere(db, op, a, TLedger, scope);
    case CurrentModel(scope) => SqlModelElsewhere(db, op, a, scope);
  }

  /** In SQLite: nothing another scope can ask changes, from any database at all. */
  lemma SqlIsolation(db: Database, op: Op, a: Scope, b: Scope, q: Query)
    requires OwnedOp(op, a) && a != b && ScopedTo(q, b)
    ensures SqlAnswer(SqlStep(db, op).0, q) == SqlAnswer(db, q)
  {
    ScopedNamesOther(q, a, b);
    SqlNamesOther(db, op, a, q);
  }
}
