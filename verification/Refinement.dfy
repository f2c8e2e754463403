/** Both backends, run side by side on the same calls. */
module Refinement {
  import opened Domain
  import opened Codec
  import opened Tables
  import opened Containers
  import opened Ledger
  import opened Sql
  import opened Ports

  type Database = map<Table, seq<Row>>

  function SqlStep(db: Database, op: Op): (Database, bool)
    requires IsOp(op)
  {
    match op
    case Record(t, v) =>
      var w := WriteRow(SqlKind(t), Lookup(db, t), RowFor(ColumnsOf(t), v));
      if w.Some? then (db[t := w.value], true) else (db, false)
    case Log(event) =>
      if !Committed(event) then (db, false) else
      var count := |SelectRows(Lookup(db, TLedger), ScopeCond(ScopeOf(event)))|;
      var w := WriteRow(SqlKind(TLedger), Lookup(db, TLedger), EntryRow(MakeEntry(count, event)));
      if w.Some? then (db[TLedger := w.value], true) else (db, false)
  }

  function LoadRow(rows: seq<Row>, i: int): Answer {
    if 0 <= i < |rows| then
      var v := Load(rows[i].json);
      if v.Some? then One(v) else Raises
    else One(None)
  }

  function LoadMany(rows: seq<Row>): Answer {
    var s := LoadAll(rows);
    if s.Some? then Many(s.value) else Raises
  }

  /** The listing loop over result rows: keys are read from the column, objects from the blob. */
  function FirstSeenRows(rows: seq<Row>, c: Column): seq<Value> {
    if rows == [] then [] else
    var order, key := FirstSeenRows(rows[..|rows| - 1], c), CellAt(rows[|rows| - 1], c);
    if key in order then order else order + [key]
  }

  function GroupRows(rows: seq<Row>, c: Column, key: Value): seq<Row> {
    if rows == [] then []
    else GroupRows(rows[..|rows| - 1], c, key) + if CellAt(rows[|rows| - 1], c) == key then [rows[|rows| - 1]] else []
  }

  /** The last row of every group, groups in first-seen order. */
  function LatestRows(rows: seq<Row>, c: Column): seq<Row> {
    var order := FirstSeenRows(rows, c);
    seq(|order|, i requires 0 <= i < |order| =>
      var g := GroupRows(rows, c, order[i]);
      if g == [] then Row(map[], JNull) else g[|g| - 1])
  }

  function NumberCell(r: Row): int { if CellAt(r, CSeq).Int? then CellAt(r, CSeq).i else -1 }

  /** ORDER BY seq, as an insertion sort from the left. */
  function Insert(rows: seq<Row>, r: Row): seq<Row> {
    if rows == [] || NumberCell(rows[|rows| - 1]) <= NumberCell(r) then rows + [r]
    else Insert(rows[..|rows| - 1], r) + [rows[|rows| - 1]]
  }

  function OrderBySeq(rows: seq<Row>): seq<Row> {
    if rows == [] then [] else Insert(OrderBySeq(rows[..|rows| - 1]), rows[|rows| - 1])
  }

  function AboveRows(rows: seq<Row>, after: int): seq<Row> {
    if rows == [] then []
    else AboveRows(rows[..|rows| - 1], after) + if NumberCell(rows[|rows| - 1]) > after then [rows[|rows| - 1]] else []
  }

  function SqlAnswer(db: Database, q: Query): Answer {
    match q
    case GetOne(t, cond) =>
      var rows := SelectRows(Lookup(db, t), cond);
      LoadRow(rows, if t.THypotheses? || t.TPredictions? then |rows| - 1 else 0)
    case Newest(t, cond) =>
      var rows := SelectRows(Lookup(db, t), cond);
      LoadRow(rows, |rows| - 1)
    case ListAll(t, cond) => LoadMany(SelectRows(Lookup(db, t), cond))
    case ListLatest(t, scope, c) =>
      var rows := SelectRows(Lookup(db, t), ScopeCond(scope));
      if LoadAll(rows).Some? then LoadMany(LatestRows(rows, c)) else Raises
    case ReadLedger(scope) => LoadMany(OrderBySeq(SelectRows(Lookup(db, TLedger), ScopeCond(scope))))
    case ReadSince(scope, after) =>
      LoadMany(OrderBySeq(AboveRows(SelectRows(Lookup(db, TLedger), ScopeCond(scope)), after)))
    case CurrentModel(scope) =>
      var pointer := LoadRow(SelectRows(Lookup(db, TCurrentPointer), ScopeCond(scope)), 0);
      if pointer.One? && pointer.r.Some?
      then LoadRow(GroupRows(SelectRows(Lookup(db, TWorldModels), ScopeCond(scope)), CVersion,
                             Get(pointer.r.value, ModelVersionId)), 0)
      else pointer
  }

  /** A ledger row stands for an entry: it is numbered as the entry is and its blob reads as it. */
  predicate EntryIs(r: Row, entry: Value) {
    ReadsAs(r.json, entry) && CellAt(r, CSeq) == Get(entry, SequenceNo)
  }

  predicate EntriesAre(rows: seq<Row>, entries: seq<Value>) {
    |rows| == |entries| && forall i :: 0 <= i < |entries| ==> EntryIs(rows[i], entries[i])
  }

  predicate AllLoad(s: seq<Value>) { forall i :: 0 <= i < |s| ==> Loads(s[i]) }

  /** One scope's ledger rows, in rowid order, are its numbered entries. */
  predicate LedgerSim(books: Books, rows: seq<Row>, s: Scope) {
    && InOrder(s, Lookup(books, s)) && AllLoad(Lookup(books, s))
    && EntriesAre(SelectRows(rows, ScopeCond(s)), Lookup(books, s))
  }

  /** Every table row stands for the record at the same place: columns equal blob fields, and the
      blob decodes to the record. */
  predicate TableSim(m: Memory, db: Database, t: Table) {
    RowsAre(ColumnsOf(t), Lookup(db, t), Lookup(m.recs, t)) && AllLoad(Lookup(m.recs, t))
  }

  ghost predicate Sim(m: Memory, db: Database) {
    && (forall t: Table :: !t.TLedger? ==> TableSim(m, db, t))
    && (forall s :: LedgerSim(m.books, Lookup(db, TLedger), s))
  }

  /** The simulation alone carries a write across, wherever both backends take it the same way. */
  lemma RecordStep(m: Memory, db: Database, t: Table, v: Value)
    requires Sim(m, db) && !t.TLedger? && Loads(v)
    requires Write(MemoryKind(t), Lookup(m.recs, t), v) == Write(SqlKind(t), Lookup(m.recs, t), v)
    ensures SqlStep(db, Record(t, v)).1 == MemoryStep(m, Record(t, v)).1
    ensures Sim(MemoryStep(m, Record(t, v)).0, SqlStep(db, Record(t, v)).0)
  {
    assert TableSim(m, db, t);
    WriteRowsAre(t, Lookup(db, t), Lookup(m.recs, t), v);
    WriteLoads(SqlKind(t), Lookup(m.recs, t), v);
    var m', db' := MemoryStep(m, Record(t, v)).0, SqlStep(db, Record(t, v)).0;
    forall u: Table | !u.TLedger? ensures TableSim(m', db', u) {
      assert TableSim(m, db, u);
    }
    forall s ensures LedgerSim(m'.books, Lookup(db', TLedger), s) {
      assert LedgerSim(m.books, Lookup(db, TLedger), s);
    }
  }

  lemma WriteLoads(k: Kind, s: seq<Value>, v: Value)
    requires AllLoad(s) && Loads(v)
    ensures Write(k, s, v).Some? ==> AllLoad(Write(k, s, v).value)
  {
    match k
    case InsertOnly(_) =>
    case Append =>
    case Upsert(key) => PutLoads(key, s, v);
  }

  lemma {:induction false} PutLoads(key: set<Column>, s: seq<Value>, v: Value)
    requires AllLoad(s) && Loads(v)
    ensures AllLoad(Put(s, key, v))
  {
    if s != [] && !SameKey(key, s[0], v) {
      PutLoads(key, s[1..], v);
    }
  }

  lemma SelectRowsAppend(rows: seq<Row>, r: Row, cond: Cond)
    ensures SelectRows(rows + [r], cond) == SelectRows(rows, cond) + if RowMatches(r, cond) then [r] else []
  {
    assert (rows + [r])[..|rows|] == rows;
  }

  lemma {:induction false} SelectedRows(rows: seq<Row>, cond: Cond, r: Row)
    ensures r in SelectRows(rows, cond) <==> r in rows && RowMatches(r, cond)
  {
    if rows != [] {
      SelectedRows(rows[..|rows| - 1], cond, r);
      assert rows == rows[..|rows| - 1] + [rows[|rows| - 1]];
    }
  }

  lemma EntryRowCells(entry: Value, s: Scope)
    ensures RowMatches(EntryRow(entry), ScopeCond(s)) <==> OwnedBy(EventOf(entry), s)
    ensures EntryIs(EntryRow(entry), entry)
  {
    var r := EntryRow(entry);
    assert CellAt(r, CSpace) == Get(EventOf(entry), SpaceId);
    assert CellAt(r, CSubject) == Get(EventOf(entry), SubjectId);
  }

  /** A row of the scope carries one of the numbers already given out. */
  lemma RowNumber(books: Books, rows: seq<Row>, s: Scope, x: Row)
    requires LedgerSim(books, rows, s) && x in rows && RowMatches(x, ScopeCond(s))
    ensures CellAt(x, CSeq).Int? && CellAt(x, CSeq).i < |Lookup(books, s)|
  {
    SelectedRows(rows, ScopeCond(s), x);
    var entries := Lookup(books, s);
    var i :| 0 <= i < |entries| && SelectRows(rows, ScopeCond(s))[i] == x;
    assert EntryIs(x, entries[i]);
    assert Entered(s, i, entries[i]);
  }

  /** COUNT(*) is a number no row of the scope carries, so the numbered insert cannot clash. */
  lemma CountIsUnused(books: Books, rows: seq<Row>, event: Value)
    requires HasScope(event) && LedgerSim(books, rows, ScopeOf(event))
    ensures var n := |SelectRows(rows, ScopeCond(ScopeOf(event)))|;
            && n == |Lookup(books, ScopeOf(event))|
            && WriteRow(SqlKind(TLedger), rows, EntryRow(MakeEntry(n, event))) ==
               Some(rows + [EntryRow(MakeEntry(n, event))])
  {
    var s := ScopeOf(event);
    var n := |Lookup(books, s)|;
    var row := EntryRow(MakeEntry(n, event));
    EntryRowCells(MakeEntry(n, event), s);
    forall x | x in rows ensures !SameCells({CSpace, CSubject, CSeq}, x, row) {
      if RowMatches(x, ScopeCond(s)) {
        RowNumber(books, rows, s, x);
        assert CellAt(x, CSeq) != CellAt(row, CSeq);
      } else {
        assert CellAt(x, CSpace) != CellAt(row, CSpace) || CellAt(x, CSubject) != CellAt(row, CSubject);
      }
    }
  }

  /** An event that is logged comes back from its blob inside any entry. */
  ghost predicate EntryLoads(event: Value) {
    Committed(event) ==> forall n: nat :: Loads(MakeEntry(n, event))
  }

  lemma LogOutcome(m: Memory, db: Database, event: Value)
    requires HasScope(event) && LedgerSim(m.books, Lookup(db, TLedger), ScopeOf(event))
    ensures SqlStep(db, Log(event)).1 == MemoryStep(m, Log(event)).1 == Committed(event)
    ensures var m', db' := MemoryStep(m, Log(event)).0, SqlStep(db, Log(event)).0;
            && m' == m.(books := Appended(m.books, event))
            && db' == if !Committed(event) then db else
                      var entry := MakeEntry(|Lookup(m.books, ScopeOf(event))|, event);
                      db[TLedger := Lookup(db, TLedger) + [EntryRow(entry)]]
  {
    CountIsUnused(m.books, Lookup(db, TLedger), event);
  }

  /** Ledger numbering from COUNT(*) keeps every scope's rows equal to its numbered list. */
  lemma LogStep(m: Memory, db: Database, event: Value)
    requires Sim(m, db) && HasScope(event) && EntryLoads(event)
    ensures SqlStep(db, Log(event)).1 == MemoryStep(m, Log(event)).1
    ensures Sim(MemoryStep(m, Log(event)).0, SqlStep(db, Log(event)).0)
  {
    assert LedgerSim(m.books, Lookup(db, TLedger), ScopeOf(event));
    LogOutcome(m, db, event);
    var m', db' := MemoryStep(m, Log(event)).0, SqlStep(db, Log(event)).0;
    forall t: Table | !t.TLedger? ensures TableSim(m', db', t) {
      assert TableSim(m, db, t);
    }
    forall s ensures LedgerSim(m'.books, Lookup(db', TLedger), s) {
      assert LedgerSim(m.books, Lookup(db, TLedger), s);
      if Committed(event) {
        LedgerGrows(m.books, Lookup(db, TLedger), event, s);
      }
    }
  }

  lemma AppendEntriesAre(rows: seq<Row>, entries: seq<Value>, r: Row, entry: Value)
    requires EntriesAre(rows, entries) && EntryIs(r, entry)
    ensures EntriesAre(rows + [r], entries + [entry])
  {
  }

  lemma EntriesLoad(entries: seq<Value>, entry: Value)
    requires AllLoad(entries) && Loads(entry)
    ensures AllLoad(entries + [entry])
  {
  }

  /** The entry's own scope: its list and its rows grow by the same one. */
  lemma OwnLedgerGrows(books: Books, after: Books, rows: seq<Row>, entry: Value, s: Scope)
    requires LedgerSim(books, rows, s) && Loads(entry) && OwnedBy(EventOf(entry), s)
    requires Lookup(after, s) == Lookup(books, s) + [entry] && InOrder(s, Lookup(after, s))
    ensures LedgerSim(after, rows + [EntryRow(entry)], s)
  {
    SelectRowsAppend(rows, EntryRow(entry), ScopeCond(s));
    EntryRowCells(entry, s);
    EntriesLoad(Lookup(books, s), entry);
    AppendEntriesAre(SelectRows(rows, ScopeCond(s)), Lookup(books, s), EntryRow(entry), entry);
  }

  lemma OtherLedgerStays(books: Books, after: Books, rows: seq<Row>, entry: Value, s: Scope)
    requires LedgerSim(books, rows, s) && !OwnedBy(EventOf(entry), s) && Lookup(after, s) == Lookup(books, s)
    ensures LedgerSim(after, rows + [EntryRow(entry)], s)
  {
    SelectRowsAppend(rows, EntryRow(entry), ScopeCond(s));
    EntryRowCells(entry, s);
    assert SelectRows(rows, ScopeCond(s)) + [] == SelectRows(rows, ScopeCond(s));
  }

  lemma AppendedLookup(books: Books, event: Value, s: Scope)
    requires HasScope(event) && Committed(event)
    ensures Lookup(Appended(books, event), s) ==
            Lookup(books, s) + if OwnedBy(event, s) then [MakeEntry(|Lookup(books, ScopeOf(event))|, event)] else []
  {
    assert OwnedBy(event, s) <==> s == ScopeOf(event);
  }

  lemma LedgerGrows(books: Books, rows: seq<Row>, event: Value, s: Scope)
    requires HasScope(event) && Committed(event) && EntryLoads(event) && LedgerSim(books, rows, s)
    ensures LedgerSim(Appended(books, event),
                      rows + [EntryRow(MakeEntry(|Lookup(books, ScopeOf(event))|, event))], s)
  {
    var entry := MakeEntry(|Lookup(books, ScopeOf(event))|, event);
    AppendAt(books, event, s);
    AppendedLookup(books, event, s);
    if OwnedBy(event, s) {
      OwnLedgerGrows(books, Appended(books, event), rows, entry, s);
    } else {
      OtherLedgerStays(books, Appended(books, event), rows, entry, s);
    }
  }

  lemma {:induction false} FirstSeenRowsAre(cols: set<Column>, rows: seq<Row>, s: seq<Value>, c: Column)
    requires c in cols && RowsAre(cols, rows, s)
    ensures FirstSeenRows(rows, c) == FirstSeen(s, FieldOf(c))
    decreases |s|
  {
    if s != [] {
      PrefixRowsAre(cols, rows, s);
      FirstSeenRowsAre(cols, rows[..|s| - 1], s[..|s| - 1], c);
    }
  }

  lemma {:induction false} GroupRowsAre(cols: set<Column>, rows: seq<Row>, s: seq<Value>, c: Column, key: Value)
    requires c in cols && RowsAre(cols, rows, s)
    ensures RowsAre(cols, GroupRows(rows, c, key), Group(s, FieldOf(c), key))
    decreases |s|
  {
    if s != [] {
      var n := |s| - 1;
      PrefixRowsAre(cols, rows, s);
      GroupRowsAre(cols, rows[..n], s[..n], c, key);
      if Get(s[n], FieldOf(c)) == key {
        AppendRowsAre(cols, GroupRows(rows[..n], c, key), Group(s[..n], FieldOf(c), key), rows[n], s[n]);
      }
    }
  }

  lemma LatestRowIs(cols: set<Column>, rows: seq<Row>, s: seq<Value>, c: Column, i: nat)
    requires c in cols && RowsAre(cols, rows, s) && i < |FirstSeen(s, FieldOf(c))|
    ensures var g := GroupRows(rows, c, FirstSeen(s, FieldOf(c))[i]);
            g != [] && RowIs(cols, g[|g| - 1], LatestPer(s, FieldOf(c))[i])
  {
    var key := FirstSeen(s, FieldOf(c))[i];
    GroupRowsAre(cols, rows, s, c, key);
    FirstSeenIsDistinct(s, FieldOf(c));
    PrefixRowsAre(cols, GroupRows(rows, c, key), Group(s, FieldOf(c), key));
    assert IsLatestPer(s, FieldOf(c), LatestPer(s, FieldOf(c)));
  }

  /** The listing loop over rows ends on the rows of the latest record per lineage. */
  lemma LatestRowsAre(cols: set<Column>, rows: seq<Row>, s: seq<Value>, c: Column)
    requires c in cols && RowsAre(cols, rows, s)
    ensures RowsAre(cols, LatestRows(rows, c), LatestPer(s, FieldOf(c)))
  {
    FirstSeenRowsAre(cols, rows, s, c);
    forall i | 0 <= i < |FirstSeen(s, FieldOf(c))|
      ensures RowIs(cols, LatestRows(rows, c)[i], LatestPer(s, FieldOf(c))[i])
    {
      LatestRowIs(cols, rows, s, c, i);
    }
  }

  lemma {:induction false} SelectLoads(s: seq<Value>, cond: Cond)
    requires AllLoad(s)
    ensures AllLoad(Select(s, cond))
    ensures forall x :: x in Select(s, cond) ==> x in s && Matches(x, cond)
  {
    if s != [] {
      SelectLoads(s[..|s| - 1], cond);
      assert s == s[..|s| - 1] + [s[|s| - 1]];
      assert Loads(s[|s| - 1]);
    }
  }

  lemma EndsLoad(cols: set<Column>, rows: seq<Row>, s: seq<Value>)
    requires RowsAre(cols, rows, s) && AllLoad(s)
    ensures LoadRow(rows, |rows| - 1) == One(Last(s)) && LoadRow(rows, 0) == One(First(s))
  {
    if s != [] {
      assert RowIs(cols, rows[0], s[0]) && Loads(s[0]);
      assert RowIs(cols, rows[|s| - 1], s[|s| - 1]) && Loads(s[|s| - 1]);
    }
  }

  /** Every filtered listing, and the newest of it, comes out of both backends the same. */
  lemma ListingsAgree(m: Memory, db: Database, t: Table, cond: Cond)
    requires TableSim(m, db, t) && cond.Keys <= ColumnsOf(t)
    ensures RowsAre(ColumnsOf(t), SelectRows(Lookup(db, t), cond), Select(Lookup(m.recs, t), cond))
    ensures LoadMany(SelectRows(Lookup(db, t), cond)) == Many(Select(Lookup(m.recs, t), cond))
    ensures var rows := SelectRows(Lookup(db, t), cond);
            LoadRow(rows, |rows| - 1) == One(Last(Select(Lookup(m.recs, t), cond)))
    ensures LoadRow(SelectRows(Lookup(db, t), cond), 0) == One(First(Select(Lookup(m.recs, t), cond)))
  {
    SelectRowsAre(ColumnsOf(t), Lookup(db, t), Lookup(m.recs, t), cond);
    SelectLoads(Lookup(m.recs, t), cond);
    LoadRowsAre(ColumnsOf(t), SelectRows(Lookup(db, t), cond), Select(Lookup(m.recs, t), cond));
    EndsLoad(ColumnsOf(t), SelectRows(Lookup(db, t), cond), Select(Lookup(m.recs, t), cond));
  }

  lemma LatestListingsAgree(m: Memory, db: Database, t: Table, scope: Scope, c: Column)
    requires !t.TLedger? && TableSim(m, db, t) && {CSpace, CSubject, c} <= ColumnsOf(t)
    ensures SqlAnswer(db, ListLatest(t, scope, c)) == MemoryAnswer(m, ListLatest(t, scope, c))
  {
    assert ScopeCond(scope).Keys == {CSpace, CSubject};
    LatestSelected(ColumnsOf(t), Lookup(db, t), Lookup(m.recs, t), ScopeCond(scope), c);
  }

  lemma LatestSelected(cols: set<Column>, rows: seq<Row>, recs: seq<Value>, cond: Cond, c: Column)
    requires c in cols && cond.Keys <= cols && RowsAre(cols, rows, recs) && AllLoad(recs)
    ensures LoadAll(SelectRows(rows, cond)).Some?
    ensures LoadMany(LatestRows(SelectRows(rows, cond), c)) == Many(LatestPer(Select(recs, cond), FieldOf(c)))
  {
    SelectRowsAre(cols, rows, recs, cond);
    SelectLoads(recs, cond);
    LatestRowsLoad(cols, SelectRows(rows, cond), Select(recs, cond), c);
    LoadRowsAre(cols, SelectRows(rows, cond), Select(recs, cond));
  }

  lemma LatestRowsLoad(cols: set<Column>, rows: seq<Row>, s: seq<Value>, c: Column)
    requires c in cols && RowsAre(cols, rows, s) && AllLoad(s)
    ensures LoadMany(LatestRows(rows, c)) == Many(LatestPer(s, FieldOf(c)))
  {
    LatestRowsAre(cols, rows, s, c);
    LatestLoads(s, FieldOf(c));
    LoadRowsAre(cols, LatestRows(rows, c), LatestPer(s, FieldOf(c)));
  }

  lemma LatestLoads(s: seq<Value>, f: Field)
    requires AllLoad(s)
    ensures AllLoad(LatestPer(s, f))
  {
    var order, r := FirstSeen(s, f), LatestPer(s, f);
    forall i | 0 <= i < |r| ensures Loads(r[i]) {
      assert Last(Group(s, f, order[i])) == Some(r[i]);
      GroupIsSelected(s, f, order[i], r[i]);
      assert r[i] in s;
    }
  }

  predicate Ordered(rows: seq<Row>) {
    forall i, j :: 0 <= i < j < |rows| ==> NumberCell(rows[i]) <= NumberCell(rows[j])
  }

  lemma {:induction false} InsertIs(rows: seq<Row>, r: Row)
    requires Ordered(rows)
    ensures Ordered(Insert(rows, r)) && multiset(Insert(rows, r)) == multiset(rows) + multiset{r}
  {
    if rows == [] || NumberCell(rows[|rows| - 1]) <= NumberCell(r) {
    } else {
      var n := |rows| - 1;
      InsertIs(rows[..n], r);
      assert rows == rows[..n] + [rows[n]];
      OrderedAppend(Insert(rows[..n], r), rows[n], rows[..n], r);
    }
  }

  lemma OrderedAppend(rows: seq<Row>, last: Row, init: seq<Row>, r: Row)
    requires Ordered(rows) && multiset(rows) == multiset(init) + multiset{r}
    requires NumberCell(r) <= NumberCell(last) && forall x :: x in init ==> NumberCell(x) <= NumberCell(last)
    ensures Ordered(rows + [last])
  {
    forall x | x in rows ensures NumberCell(x) <= NumberCell(last) {
      assert x in multiset(rows);
    }
  }

  /** ORDER BY seq gives the same rows, in the order of their numbers. */
  lemma {:induction false} OrderBySeqIs(rows: seq<Row>)
    ensures Ordered(OrderBySeq(rows)) && multiset(OrderBySeq(rows)) == multiset(rows)
  {
    if rows != [] {
      var n := |rows| - 1;
      OrderBySeqIs(rows[..n]);
      InsertIs(OrderBySeq(rows[..n]), rows[n]);
      assert rows == rows[..n] + [rows[n]];
    }
  }

  lemma {:induction false} OrderedAlready(rows: seq<Row>)
    requires forall i :: 0 < i < |rows| ==> NumberCell(rows[i - 1]) <= NumberCell(rows[i])
    ensures OrderBySeq(rows) == rows
  {
    if rows != [] {
      OrderedAlready(rows[..|rows| - 1]);
    }
  }

  lemma EntryNumbered(s: Scope, i: nat, r: Row, entry: Value)
    requires Entered(s, i, entry) && EntryIs(r, entry)
    ensures NumberCell(r) == i == NumberOf(entry)
  {
  }

  lemma PrefixEntriesAre(s: Scope, rows: seq<Row>, entries: seq<Value>)
    requires EntriesAre(rows, entries) && InOrder(s, entries) && entries != []
    ensures var n := |entries| - 1;
            && EntriesAre(rows[..n], entries[..n]) && InOrder(s, entries[..n])
            && EntryIs(rows[n], entries[n]) && Entered(s, n, entries[n])
  {
  }

  lemma {:induction false} AboveRowsAre(s: Scope, rows: seq<Row>, entries: seq<Value>, after: int)
    requires InOrder(s, entries) && EntriesAre(rows, entries)
    ensures EntriesAre(AboveRows(rows, after), Since(entries, after))
    decreases |entries|
  {
    if entries != [] {
      var n := |entries| - 1;
      PrefixEntriesAre(s, rows, entries);
      AboveRowsAre(s, rows[..n], entries[..n], after);
      EntryNumbered(s, n, rows[n], entries[n]);
    }
  }

  lemma {:induction false} LoadEntries(rows: seq<Row>, entries: seq<Value>)
    requires AllLoad(entries) && EntriesAre(rows, entries)
    ensures LoadAll(rows) == Some(entries)
    decreases |entries|
  {
    if entries != [] {
      var n := |entries| - 1;
      var init, row, before, last := rows[..n], rows[n], entries[..n], entries[n];
      LoadEntries(init, before);
      assert rows == init + [row] && entries == before + [last];
      EntryLoadsAs(row, last);
      LoadAppend(init, row, before, last);
    }
  }

  lemma EntryLoadsAs(r: Row, entry: Value)
    requires EntryIs(r, entry) && Loads(entry)
    ensures Load(r.json) == Some(entry)
  {
  }

  lemma LoadAppend(rows: seq<Row>, r: Row, s: seq<Value>, v: Value)
    requires LoadAll(rows) == Some(s) && Load(r.json) == Some(v)
    ensures LoadAll(rows + [r]) == Some(s + [v])
  {
    assert (rows + [r])[..|rows|] == rows;
  }

  lemma SuffixNumbered(s: Scope, rows: seq<Row>, entries: seq<Value>, k: nat, i: nat)
    requires InOrder(s, entries) && k <= |entries| && EntriesAre(rows, entries[k..]) && i < |rows|
    ensures NumberCell(rows[i]) == k + i
  {
    assert EntryIs(rows[i], entries[k..][i]);
    EntryNumbered(s, k + i, rows[i], entries[k + i]);
  }

  lemma SuffixOrdered(s: Scope, rows: seq<Row>, entries: seq<Value>, k: nat)
    requires InOrder(s, entries) && k <= |entries| && EntriesAre(rows, entries[k..])
    ensures OrderBySeq(rows) == rows
  {
    forall i | 0 < i < |rows| ensures NumberCell(rows[i - 1]) <= NumberCell(rows[i]) {
      SuffixNumbered(s, rows, entries, k, i - 1);
      SuffixNumbered(s, rows, entries, k, i);
    }
    OrderedAlready(rows);
  }

  /** The rows of a suffix of a numbered list are already in order, and load. */
  lemma SuffixReads(s: Scope, rows: seq<Row>, entries: seq<Value>, k: nat)
    requires InOrder(s, entries) && AllLoad(entries) && k <= |entries| && EntriesAre(rows, entries[k..])
    ensures LoadMany(OrderBySeq(rows)) == Many(entries[k..])
  {
    SuffixOrdered(s, rows, entries, k);
    LoadEntries(rows, entries[k..]);
  }

  lemma LedgerReadsAgree(m: Memory, db: Database, s: Scope, after: int)
    requires LedgerSim(m.books, Lookup(db, TLedger), s)
    ensures SqlAnswer(db, ReadLedger(s)) == MemoryAnswer(m, ReadLedger(s))
    ensures SqlAnswer(db, ReadSince(s, after)) == MemoryAnswer(m, ReadSince(s, after))
  {
    var rows, entries := SelectRows(Lookup(db, TLedger), ScopeCond(s)), Lookup(m.books, s);
    AllReads(s, rows, entries);
    SinceReads(s, rows, entries, after);
  }

  lemma AllReads(s: Scope, rows: seq<Row>, entries: seq<Value>)
    requires InOrder(s, entries) && AllLoad(entries) && EntriesAre(rows, entries)
    ensures LoadMany(OrderBySeq(rows)) == Many(entries)
  {
    assert entries[0..] == entries;
    SuffixReads(s, rows, entries, 0);
  }

  lemma SinceReads(s: Scope, rows: seq<Row>, entries: seq<Value>, after: int)
    requires InOrder(s, entries) && AllLoad(entries) && EntriesAre(rows, entries)
    ensures LoadMany(OrderBySeq(AboveRows(rows, after))) == Many(Since(entries, after))
  {
    AboveRowsAre(s, rows, entries, after);
    SinceFrom(s, entries, after);
    SuffixReads(s, AboveRows(rows, after), entries, SuffixStart(|entries|, after));
  }

  predicate UniqueBy(s: seq<Value>, key: set<Column>) {
    forall x, y :: x in s && y in s && SameKey(key, x, y) ==> x == y
  }

  /** Getter keys never stand for two different records in the tables whose SQL getter reads the
      newest row: record ids are not reused for other content, prediction ids not at all. */
  predicate KeysUnique(m: Memory) {
    && UniqueBy(Lookup(m.recs, THypotheses), GetKey(THypotheses))
    && UniqueBy(Lookup(m.recs, TPredictions), GetKey(TPredictions))
  }

  lemma FirstIsLast(s: seq<Value>, cond: Cond)
    requires UniqueBy(s, cond.Keys)
    ensures First(Select(s, cond)) == Last(Select(s, cond))
  {
    var found := Select(s, cond);
    if found != [] {
      SelectedIn(s, cond, found[0]);
      SelectedIn(s, cond, found[|found| - 1]);
      assert SameKey(cond.Keys, found[0], found[|found| - 1]);
    }
  }

  lemma {:induction false} SelectedIn(s: seq<Value>, cond: Cond, x: Value)
    ensures x in Select(s, cond) <==> x in s && Matches(x, cond)
  {
    if s != [] {
      SelectedIn(s[..|s| - 1], cond, x);
      assert s == s[..|s| - 1] + [s[|s| - 1]];
    }
  }

  lemma GettersAgree(m: Memory, db: Database, t: Table, cond: Cond)
    requires KeysUnique(m) && TableSim(m, db, t) && IsQuery(GetOne(t, cond))
    ensures SqlAnswer(db, GetOne(t, cond)) == MemoryAnswer(m, GetOne(t, cond))
  {
    ListingsAgree(m, db, t, cond);
    if t.THypotheses? || t.TPredictions? {
      FirstIsLast(Lookup(m.recs, t), cond);
    }
  }

  lemma GroupLoads(s: seq<Value>, f: Field, key: Value)
    requires AllLoad(s)
    ensures AllLoad(Group(s, f, key))
  {
    forall i | 0 <= i < |Group(s, f, key)| ensures Loads(Group(s, f, key)[i]) {
      GroupIsSelected(s, f, key, Group(s, f, key)[i]);
    }
  }

  lemma FirstOfGroup(cols: set<Column>, rows: seq<Row>, found: seq<Value>, c: Column, key: Value)
    requires c in cols && RowsAre(cols, rows, found) && AllLoad(found)
    ensures LoadRow(GroupRows(rows, c, key), 0) == One(First(Group(found, FieldOf(c), key)))
  {
    GroupRowsAre(cols, rows, found, c, key);
    GroupLoads(found, FieldOf(c), key);
    EndsLoad(cols, GroupRows(rows, c, key), Group(found, FieldOf(c), key));
  }

  lemma FirstSelected(cols: set<Column>, rows: seq<Row>, recs: seq<Value>, cond: Cond, c: Column, key: Value)
    requires c in cols && cond.Keys <= cols && RowsAre(cols, rows, recs) && AllLoad(recs)
    ensures LoadRow(GroupRows(SelectRows(rows, cond), c, key), 0) ==
            One(First(Group(Select(recs, cond), FieldOf(c), key)))
  {
    SelectRowsAre(cols, rows, recs, cond);
    SelectLoads(recs, cond);
    FirstOfGroup(cols, SelectRows(rows, cond), Select(recs, cond), c, key);
  }

  /** Some version of a scope, by whatever identifies it, is the same object in both backends. */
  lemma VersionsAgree(m: Memory, db: Database, s: Scope, version: Value)
    requires TableSim(m, db, TWorldModels)
    ensures LoadRow(GroupRows(SelectRows(Lookup(db, TWorldModels), ScopeCond(s)), CVersion, version), 0) ==
            One(First(Group(Select(Lookup(m.recs, TWorldModels), ScopeCond(s)), ModelVersionId, version)))
  {
    var cols := ColumnsOf(TWorldModels);
    assert cols == {CSpace, CSubject, CVersion} && ScopeCond(s).Keys == {CSpace, CSubject};
    assert FieldOf(CVersion) == ModelVersionId;
    FirstSelected(cols, Lookup(db, TWorldModels), Lookup(m.recs, TWorldModels), ScopeCond(s), CVersion, version);
  }

  /** The current model: through the pointer to the version it names. */
  lemma CurrentModelsAgree(m: Memory, db: Database, s: Scope)
    requires TableSim(m, db, TWorldModels) && TableSim(m, db, TCurrentPointer)
    ensures SqlAnswer(db, CurrentModel(s)) == MemoryAnswer(m, CurrentModel(s))
  {
    ListingsAgree(m, db, TCurrentPointer, ScopeCond(s));
    var pointer := First(Select(Lookup(m.recs, TCurrentPointer), ScopeCond(s)));
    if pointer.Some? {
      VersionsAgree(m, db, s, Get(pointer.value, ModelVersionId));
    }
  }

  /** In simulating states with unique getter keys, every shared query answers the same. */
  lemma AnswersAgree(m: Memory, db: Database, q: Query)
    requires Sim(m, db) && KeysUnique(m) && IsQuery(q)
    ensures SqlAnswer(db, q) == MemoryAnswer(m, q)
  {
    match q
    case GetOne(t, cond) =>
      assert TableSim(m, db, t);
      GettersAgree(m, db, t, cond);
    case Newest(t, cond) =>
      assert TableSim(m, db, t);
      ListingsAgree(m, db, t, cond);
    case ListAll(t, cond) =>
      assert TableSim(m, db, t);
      ListingsAgree(m, db, t, cond);
    case ListLatest(t, scope, c) =>
      assert TableSim(m, db, t);
      LatestListingsAgree(m, db, t, scope, c);
    case ReadLedger(scope) =>
      assert LedgerSim(m.books, Lookup(db, TLedger), scope);
      LedgerReadsAgree(m, db, scope, 0);
    case ReadSince(scope, after) =>
      assert LedgerSim(m.books, Lookup(db, TLedger), scope);
      LedgerReadsAgree(m, db, scope, after);
    case CurrentModel(scope) =>
      assert TableSim(m, db, TWorldModels) && TableSim(m, db, TCurrentPointer);
      CurrentModelsAgree(m, db, scope);
  }

  lemma MatchesMore(v: Value, s: Scope, c: Column, key: string)
    requires c != CSpace && c != CSubject
    ensures Matches(v, ScopeCond(s)[c := key]) <==> Matches(v, ScopeCond(s)) && Get(v, FieldOf(c)) == Str(key)
  {
    var cond := ScopeCond(s)[c := key];
    assert cond[c] == key && cond[CSpace] == s.space && cond[CSubject] == s.subject;
    assert forall d :: d in cond <==> d in ScopeCond(s) || d == c;
  }

  lemma {:induction false} LineageIsGroup(recs: seq<Value>, s: Scope, c: Column, key: string)
    requires c != CSpace && c != CSubject
    ensures Select(recs, ScopeCond(s)[c := key]) == Group(Select(recs, ScopeCond(s)), FieldOf(c), Str(key))
  {
    if recs != [] {
      var n := |recs| - 1;
      LineageIsGroup(recs[..n], s, c, key);
      MatchesMore(recs[n], s, c, key);
      if Matches(recs[n], ScopeCond(s)) {
        GroupAppend(Select(recs[..n], ScopeCond(s)), FieldOf(c), Str(key), recs[n]);
      } else {
        assert Select(recs, ScopeCond(s)) == Select(recs[..n], ScopeCond(s));
      }
    }
  }

  /** What the latest-per-lineage listing shows for a lineage is what `latest` returns and what `lineage`
      ends on; the listing has one entry per distinct lineage id, in first-seen order. */
  lemma ListedIsLatest(m: Memory, s: Scope, i: nat)
    requires i < |FirstSeen(Select(Lookup(m.recs, THypotheses), ScopeCond(s)), HypothesisId)|
    requires FirstSeen(Select(Lookup(m.recs, THypotheses), ScopeCond(s)), HypothesisId)[i].Str?
    ensures var order := FirstSeen(Select(Lookup(m.recs, THypotheses), ScopeCond(s)), HypothesisId);
            var lineage := ScopeCond(s)[CHypothesisId := order[i].s];
            var listed := MemoryAnswer(m, ListLatest(THypotheses, s, CHypothesisId));
            && listed.Many? && |listed.s| == |order|
            && MemoryAnswer(m, Newest(THypotheses, lineage)) == One(Some(listed.s[i]))
            && Last(MemoryAnswer(m, ListAll(THypotheses, lineage)).s) == Some(listed.s[i])
  {
    var found := Select(Lookup(m.recs, THypotheses), ScopeCond(s));
    LineageIsGroup(Lookup(m.recs, THypotheses), s, CHypothesisId, FirstSeen(found, HypothesisId)[i].s);
    assert IsLatestPer(found, HypothesisId, LatestPer(found, HypothesisId));
  }
}
