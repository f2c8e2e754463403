/** Where the backends part: the conditions of the run theorem are exact, call by call. */
module Divergence {
  import opened Domain
  import opened Codec
  import opened Declared
  import opened Tables
  import opened Containers
  import opened Keyed
  import opened Ledger
  import opened Sql
  import opened Ports
  import opened Refinement
  import opened Backends

  /** A query that is bound to read what was just written to the table. */
  function ReadBackKey(t: Table): set<Column> {
    if GetKey(t) != {} then GetKey(t)
    else match t
      case TInquiries => {CId}
      case TRecognition => {CSpace, CSubject}
      case _ => {CFromRef}
  }

  function ReadBack(t: Table, v: Value): Query
    requires Typed(t, v) && !t.TLedger?
  {
    var cond := KeyCond(t, ReadBackKey(t), v);
    if GetKey(t) != {} then GetOne(t, cond) else if t.TInquiries? then Newest(t, cond) else ListAll(t, cond)
  }

  function KeyCond(t: Table, key: set<Column>, v: Value): (cond: Cond)
    requires Typed(t, v) && key <= ColumnsOf(t)
    ensures cond.Keys == key && Matches(v, cond)
  {
    map c | c in key :: Get(v, FieldOf(c)).s
  }

  lemma ReadBackIsQuery(t: Table, v: Value)
    requires Typed(t, v) && !t.TLedger?
    ensures IsQuery(ReadBack(t, v))
  {
  }

  lemma {:induction false} OneBadBlob(rows: seq<Row>, i: nat)
    requires i < |rows| && Load(rows[i].json) == None
    ensures LoadAll(rows) == None
  {
    if i < |rows| - 1 {
      OneBadBlob(rows[..|rows| - 1], i);
    }
  }

  lemma MatchesSameKey(cond: Cond, x: Value, v: Value)
    requires Matches(v, cond)
    ensures Matches(x, cond) <==> SameKey(cond.Keys, x, v)
  {
    if Matches(x, cond) {
      forall c | c in cond.Keys ensures Get(x, FieldOf(c)) == Get(v, FieldOf(c)) {
        assert Get(v, FieldOf(c)) == Str(cond[c]);
      }
    } else {
      var c :| c in cond && Get(x, FieldOf(c)) != Str(cond[c]);
      assert Get(v, FieldOf(c)) == Str(cond[c]);
    }
  }

  lemma Associates<T>(a: seq<T>, b: seq<T>, c: seq<T>)
    ensures (a + b) + c == a + (b + c)
  {
  }

  lemma {:induction false} SelectCons(x: Value, s: seq<Value>, cond: Cond)
    ensures Select([x] + s, cond) == (if Matches(x, cond) then [x] else []) + Select(s, cond)
    decreases |s|
  {
    if s == [] {
      assert [x] + s == [] + [x];
      SelectAppend([], x, cond);
    } else {
      var init, last := s[..|s| - 1], s[|s| - 1];
      SelectCons(x, init, cond);
      assert s == init + [last];
      SelectConsStep(x, init, last, cond);
    }
  }

  lemma SelectConsStep(x: Value, init: seq<Value>, last: Value, cond: Cond)
    requires Select([x] + init, cond) == (if Matches(x, cond) then [x] else []) + Select(init, cond)
    ensures Select([x] + (init + [last]), cond) == (if Matches(x, cond) then [x] else []) + Select(init + [last], cond)
  {
    var first, end := if Matches(x, cond) then [x] else [], if Matches(last, cond) then [last] else [];
    Associates([x], init, [last]);
    SelectAppend([x] + init, last, cond);
    SelectAppend(init, last, cond);
    Associates(first, Select(init, cond), end);
  }

  lemma {:induction false} PutIsFirst(s: seq<Value>, cond: Cond, v: Value)
    requires Matches(v, cond)
    ensures First(Select(Put(s, cond.Keys, v), cond)) == Some(v)
  {
    if s == [] {
      SelectCons(v, [], cond);
      assert [v] + [] == [v];
    } else {
      MatchesSameKey(cond, s[0], v);
      if SameKey(cond.Keys, s[0], v) {
        SelectCons(v, s[1..], cond);
      } else {
        PutIsFirst(s[1..], cond, v);
        SelectCons(s[0], Put(s[1..], cond.Keys, v), cond);
      }
    }
  }

  /** The read-back query's selection starts (insert, upsert) or ends (append) with the record. */
  lemma ReadBackFinds(t: Table, s: seq<Value>, v: Value, cond: Cond)
    requires !t.TLedger? && Typed(t, v) && cond == KeyCond(t, ReadBackKey(t), v)
    requires Write(SqlKind(t), s, v).Some?
    ensures var found := Select(Write(SqlKind(t), s, v).value, cond);
            if SqlKind(t).Append? then Last(found) == Some(v) else First(found) == Some(v)
  {
    match SqlKind(t)
    case Append => SelectAppend(s, v, cond);
    case Upsert(key) => PutIsFirst(s, cond, v);
    case InsertOnly(key) =>
      SelectAppend(s, v, cond);
      forall x | x in s ensures !Matches(x, cond) {
        MatchesSameKey(cond, x, v);
      }
      SelectNone(s, cond);
  }

  lemma RowsAfter(db: Database, s: seq<Value>, t: Table, v: Value, cond: Cond)
    requires !t.TLedger? && cond.Keys <= ColumnsOf(t)
    requires RowsAre(ColumnsOf(t), Lookup(db, t), s) && Write(SqlKind(t), s, v).Some?
    ensures RowsAre(ColumnsOf(t), SelectRows(Lookup(SqlStep(db, Record(t, v)).0, t), cond),
                    Select(Write(SqlKind(t), s, v).value, cond))
  {
    WriteRowsAre(t, Lookup(db, t), s, v);
    SelectRowsAre(ColumnsOf(t), Lookup(SqlStep(db, Record(t, v)).0, t), Write(SqlKind(t), s, v).value, cond);
  }

  lemma EndsRaise(cols: set<Column>, rows: seq<Row>, found: seq<Value>, v: Value)
    requires RowsAre(cols, rows, found) && Load(Dump(v)) == None
    ensures First(found) == Some(v) ==> LoadRow(rows, 0) == Raises
    ensures Last(found) == Some(v) ==> LoadRow(rows, |found| - 1) == Raises && LoadMany(rows) == Raises
  {
    if First(found) == Some(v) {
      assert RowIs(cols, rows[0], v);
    }
    if Last(found) == Some(v) {
      assert RowIs(cols, rows[|found| - 1], v);
      OneBadBlob(rows, |found| - 1);
    }
  }

  lemma ReadBackRaises(after: Database, t: Table, v: Value, found: seq<Value>)
    requires !t.TLedger? && Typed(t, v) && Load(Dump(v)) == None
    requires RowsAre(ColumnsOf(t), SelectRows(Lookup(after, t), KeyCond(t, ReadBackKey(t), v)), found)
    requires if SqlKind(t).Append? then Last(found) == Some(v) else First(found) == Some(v)
    ensures SqlAnswer(after, ReadBack(t, v)) == Raises
  {
    var cond := KeyCond(t, ReadBackKey(t), v);
    EndsRaise(ColumnsOf(t), SelectRows(Lookup(after, t), cond), found, v);
    ReadBackIs(after, t, v, |found|);
  }

  /** The read-back decodes one row, the first or the last, or all of them. */
  lemma ReadBackIs(after: Database, t: Table, v: Value, n: nat)
    requires !t.TLedger? && Typed(t, v) && n == |SelectRows(Lookup(after, t), KeyCond(t, ReadBackKey(t), v))|
    ensures var rows := SelectRows(Lookup(after, t), KeyCond(t, ReadBackKey(t), v));
            || SqlAnswer(after, ReadBack(t, v)) == LoadRow(rows, if SqlKind(t).Append? then n - 1 else 0)
            || (SqlKind(t).Append? && SqlAnswer(after, ReadBack(t, v)) == LoadMany(rows))
  {
  }

  /** A record that does not load again is accepted, and then its read-back raises. */
  lemma UnloadableRaises(db: Database, s: seq<Value>, t: Table, v: Value)
    requires !t.TLedger? && Typed(t, v) && Load(Dump(v)) == None
    requires RowsAre(ColumnsOf(t), Lookup(db, t), s) && Write(SqlKind(t), s, v).Some?
    ensures SqlAnswer(SqlStep(db, Record(t, v)).0, ReadBack(t, v)) == Raises
  {
    var cond := KeyCond(t, ReadBackKey(t), v);
    RowsAfter(db, s, t, v, cond);
    ReadBackFinds(t, s, v, cond);
    ReadBackRaises(SqlStep(db, Record(t, v)).0, t, v, Select(Write(SqlKind(t), s, v).value, cond));
  }

  /** The newest of a record id is what was just appended; the first is still the old content. */
  lemma ReusedSelection(s: seq<Value>, v: Value, x: Value, cond: Cond)
    requires UniqueBy(s, cond.Keys) && Matches(v, cond)
    requires x in s && SameKey(cond.Keys, x, v)
    ensures First(Select(s + [v], cond)) == Some(x) && Last(Select(s + [v], cond)) == Some(v)
  {
    SelectAppend(s, v, cond);
    MatchesSameKey(cond, x, v);
    SelectedIn(s, cond, x);
    SelectedIn(s, cond, Select(s, cond)[0]);
    MatchesSameKey(cond, Select(s, cond)[0], v);
    assert SameKey(cond.Keys, Select(s, cond)[0], x);
  }

  lemma AppendedRows(m: Memory, db: Database, v: Value, cond: Cond)
    requires TableSim(m, db, THypotheses) && cond.Keys == GetKey(THypotheses)
    ensures SqlAnswer(db, GetOne(THypotheses, cond)) == One(Last(Select(Lookup(m.recs, THypotheses), cond)))
    ensures MemoryAnswer(m, GetOne(THypotheses, cond)) == One(First(Select(Lookup(m.recs, THypotheses), cond)))
  {
    ListingsAgree(m, db, THypotheses, cond);
  }

  lemma AppendedAnswers(m: Memory, db: Database, v: Value, cond: Cond)
    requires Sim(m, db) && Loads(v) && cond.Keys == GetKey(THypotheses)
    ensures var q, op := GetOne(THypotheses, cond), Record(THypotheses, v);
            && SqlAnswer(SqlStep(db, op).0, q) == One(Last(Select(Lookup(m.recs, THypotheses) + [v], cond)))
            && MemoryAnswer(MemoryStep(m, op).0, q) == One(First(Select(Lookup(m.recs, THypotheses) + [v], cond)))
  {
    RecordStep(m, db, THypotheses, v);
    var m', db' := MemoryStep(m, Record(THypotheses, v)).0, SqlStep(db, Record(THypotheses, v)).0;
    assert TableSim(m', db', THypotheses);
    AppendedRows(m', db', v, cond);
  }

  /** Reusing a record id for other content: memory keeps answering the first, SQLite the last. */
  lemma ReusedRecordId(m: Memory, db: Database, v: Value, x: Value)
    requires Sim(m, db) && KeysUnique(m) && Typed(THypotheses, v) && Loads(v)
    requires x in Lookup(m.recs, THypotheses) && SameKey(GetKey(THypotheses), x, v) && x != v
    ensures var q, op := ReadBack(THypotheses, v), Record(THypotheses, v);
            && SqlAnswer(SqlStep(db, op).0, q) == One(Some(v))
            && MemoryAnswer(MemoryStep(m, op).0, q) == One(Some(x))
  {
    var cond := KeyCond(THypotheses, GetKey(THypotheses), v);
    ReusedSelection(Lookup(m.recs, THypotheses), v, x, cond);
    AppendedAnswers(m, db, v, cond);
  }

  lemma {:induction false} SelectUpdate(s: seq<Value>, i: nat, v: Value, cond: Cond)
    requires i < |s|
    ensures |Select(s[i := v], cond)| + (if Matches(s[i], cond) then 1 else 0)
         == |Select(s, cond)| + (if Matches(v, cond) then 1 else 0)
  {
    var init, last := s[..|s| - 1], s[|s| - 1];
    assert s == init + [last];
    SelectAppend(init, last, cond);
    if i < |init| {
      SelectUpdate(init, i, v, cond);
      assert s[i := v] == init[i := v] + [last];
      SelectAppend(init[i := v], last, cond);
    } else {
      assert s[i := v] == init + [v];
      SelectAppend(init, v, cond);
    }
  }

  lemma {:induction false} LoadAllLength(rows: seq<Row>)
    ensures LoadAll(rows).Some? ==> |LoadAll(rows).value| == |rows|
  {
    if rows != [] {
      LoadAllLength(rows[..|rows| - 1]);
    }
  }

  lemma ListedTwice(after: Database, s: seq<Value>, v: Value, cond: Cond)
    requires RowsAre(ColumnsOf(TPredictions), SelectRows(Lookup(after, TPredictions), cond), Select(s + [v], cond))
    ensures var a := SqlAnswer(after, ListAll(TPredictions, cond));
            a.Many? ==> |a.s| == |Select(s, cond)| + if Matches(v, cond) then 1 else 0
  {
    SelectAppend(s, v, cond);
    LoadAllLength(SelectRows(Lookup(after, TPredictions), cond));
  }

  lemma ListedOnce(s: seq<Value>, v: Value, i: nat, cond: Cond)
    requires i < |s| && Matches(s[i], cond) && SameKey({CId}, s[i], v)
    requires forall k :: 0 <= k < i ==> !SameKey({CId}, s[k], v)
    ensures |Select(Put(s, {CId}, v), cond)| < |Select(s, cond)| + if Matches(v, cond) then 1 else 0
  {
    PutAt(s, {CId}, v, i);
    SelectUpdate(s, i, v, cond);
  }

  lemma MemoryLists(m: Memory, v: Value, cond: Cond)
    ensures MemoryAnswer(MemoryStep(m, Record(TPredictions, v)).0, ListAll(TPredictions, cond)) ==
            Many(Select(Put(Lookup(m.recs, TPredictions), {CId}, v), cond))
  {
  }

  lemma PredictionRows(db: Database, s: seq<Value>, v: Value, cond: Cond)
    requires cond.Keys == {CSpace, CSubject} && RowsAre(ColumnsOf(TPredictions), Lookup(db, TPredictions), s)
    ensures var a := SqlAnswer(SqlStep(db, Record(TPredictions, v)).0, ListAll(TPredictions, cond));
            a.Many? ==> |a.s| == |Select(s, cond)| + if Matches(v, cond) then 1 else 0
  {
    RowsAfter(db, s, TPredictions, v, cond);
    ListedTwice(SqlStep(db, Record(TPredictions, v)).0, s, v, cond);
  }

  lemma ListsDiffer(m: Memory, db: Database, v: Value, i: nat, cond: Cond)
    requires i < |Lookup(m.recs, TPredictions)| && cond.Keys == {CSpace, CSubject}
    requires RowsAre(ColumnsOf(TPredictions), Lookup(db, TPredictions), Lookup(m.recs, TPredictions))
    requires Matches(Lookup(m.recs, TPredictions)[i], cond) && SameKey({CId}, Lookup(m.recs, TPredictions)[i], v)
    requires forall k :: 0 <= k < i ==> !SameKey({CId}, Lookup(m.recs, TPredictions)[k], v)
    ensures SqlAnswer(SqlStep(db, Record(TPredictions, v)).0, ListAll(TPredictions, cond))
         != MemoryAnswer(MemoryStep(m, Record(TPredictions, v)).0, ListAll(TPredictions, cond))
  {
    var s := Lookup(m.recs, TPredictions);
    ListedOnce(s, v, i, cond);
    PredictionRows(db, s, v, cond);
    MemoryLists(m, v, cond);
    assert MemoryAnswer(MemoryStep(m, Record(TPredictions, v)).0, ListAll(TPredictions, cond)).s ==
           Select(Put(s, {CId}, v), cond);
  }

  /** Reusing a prediction id: memory replaces, SQLite lists both, so the scope that held the id
      sees one record less in memory. */
  lemma ReusedPredictionId(m: Memory, db: Database, v: Value, x: Value) returns (q: Query)
    requires TableSim(m, db, TPredictions)
    requires x in Lookup(m.recs, TPredictions) && SameKey({CId}, x, v)
    requires forall y :: y in Lookup(m.recs, TPredictions) ==> Typed(TPredictions, y)
    ensures IsQuery(q)
    ensures SqlAnswer(SqlStep(db, Record(TPredictions, v)).0, q)
         != MemoryAnswer(MemoryStep(m, Record(TPredictions, v)).0, q)
  {
    var s := Lookup(m.recs, TPredictions);
    var j :| 0 <= j < |s| && s[j] == x;
    var i := FirstSameKey(s, {CId}, v, j);
    var cond := KeyCond(TPredictions, {CSpace, CSubject}, s[i]);
    q := ListAll(TPredictions, cond);
    ListsDiffer(m, db, v, i, cond);
  }

  lemma {:induction false} FirstSameKey(s: seq<Value>, key: set<Column>, v: Value, j: nat) returns (i: nat)
    requires j < |s| && SameKey(key, s[j], v)
    ensures i <= j && SameKey(key, s[i], v)
    ensures forall k :: 0 <= k < i ==> !SameKey(key, s[k], v)
  {
    i := 0;
    while !SameKey(key, s[i], v)
      invariant i <= j && forall k :: 0 <= k < i ==> !SameKey(key, s[k], v)
      decreases j - i
    {
      i := i + 1;
    }
  }

  /** A record that is accepted keeps the backends in agreement exactly when it fits. */
  lemma AgreementIsExact(m: Memory, db: Database, t: Table, v: Value)
    requires Sim(m, db) && KeysUnique(m) && !t.TLedger? && Built(DOMAIN, v) && Typed(t, v)
    requires forall y :: y in Lookup(m.recs, TPredictions) ==> Typed(TPredictions, y)
    requires MemoryStep(m, Record(t, v)).1
    ensures Agree(MemoryStep(m, Record(t, v)).0, SqlStep(db, Record(t, v)).0) <==> Fits(m, Record(t, v))
  {
    var m', db' := MemoryStep(m, Record(t, v)).0, SqlStep(db, Record(t, v)).0;
    LoadDump(v);
    ReadBackIsQuery(t, v);
    if Fits(m, Record(t, v)) {
      StepAgrees(m, db, Record(t, v));
      forall q | IsQuery(q) ensures SqlAnswer(db', q) == MemoryAnswer(m', q) {
        AnswersAgree(m', db', q);
      }
    } else if !Registered(DOMAIN, v) {
      assert TableSim(m, db, t);
      UnloadableRaises(db, Lookup(m.recs, t), t, v);
    } else if t.THypotheses? {
      var x :| x in Lookup(m.recs, t) && SameKey(GetKey(t), x, v) && x != v;
      ReusedRecordId(m, db, v, x);
    } else {
      var x :| x in Lookup(m.recs, t) && SameKey(GetKey(t), x, v);
      assert TableSim(m, db, TPredictions);
      var q := ReusedPredictionId(m, db, v, x);
    }
  }

  // ----- the ledger -----

  lemma EntryBuilds(n: nat, event: Value)
    requires event.Obj? && event.cls == RevisionEvent && Committed(event) && Built(DOMAIN, event)
    ensures Built(DOMAIN, MakeEntry(n, event))
  {
    var f := MakeEntry(n, event).fields;
    EventHasTime(event);
    EntryAccepted(n, event, f);
    EntryPartsBuild(DOMAIN, n, event, f);
    ObjectBuilds(DOMAIN, RevisionLedgerEntry, f);
  }

  lemma EntryPartsBuild(d: Declarations, n: nat, event: Value, f: map<Field, Value>)
    requires event.Obj? && CreatedAt in event.fields && f == MakeEntry(n, event).fields && Built(d, event)
    ensures forall k :: k in f ==> Built(d, f[k])
  {
  }

  lemma UnregisteredPart(d: Declarations, c: Class, f: map<Field, Value>, k: Field)
    requires k in f && !Registered(d, f[k])
    ensures !Registered(d, Obj(c, f))
  {
  }

  lemma UnloadableEntry(n: nat, event: Value)
    requires event.Obj? && event.cls == RevisionEvent && Committed(event)
    requires Built(DOMAIN, event) && !Registered(DOMAIN, event)
    ensures Load(Dump(MakeEntry(n, event))) == None
  {
    EntryBuilds(n, event);
    UnregisteredPart(DOMAIN, RevisionLedgerEntry, MakeEntry(n, event).fields, RevisionEventField);
    LoadDump(MakeEntry(n, event));
  }

  /** The rows of a scope after one more entry: numbered as the list is, whether they load or not. */
  lemma LoggedRows(books: Books, rows: seq<Row>, event: Value, entry: Value, s: Scope)
    requires HasScope(event) && Committed(event) && s == ScopeOf(event) && LedgerSim(books, rows, s)
    requires entry == MakeEntry(|Lookup(books, s)|, event)
    ensures var after := SelectRows(rows + [EntryRow(entry)], ScopeCond(s));
            after == SelectRows(rows, ScopeCond(s)) + [EntryRow(entry)] && OrderBySeq(after) == after
  {
    var before, entries := SelectRows(rows, ScopeCond(s)), Lookup(books, s) + [entry];
    SelectRowsAppend(rows, EntryRow(entry), ScopeCond(s));
    EntryRowCells(entry, s);
    AppendEntriesAre(before, Lookup(books, s), EntryRow(entry), entry);
    AppendAt(books, event, s);
    AppendedLookup(books, event, s);
    assert entries[0..] == entries;
    SuffixOrdered(s, before + [EntryRow(entry)], entries, 0);
  }

  lemma LastBadBlob(rows: seq<Row>, r: Row)
    requires Load(r.json) == None
    ensures LoadMany(rows + [r]) == Raises
  {
    OneBadBlob(rows + [r], |rows|);
  }

  lemma UnloadableRead(books: Books, rows: seq<Row>, event: Value, entry: Value, s: Scope)
    requires HasScope(event) && Committed(event) && s == ScopeOf(event) && LedgerSim(books, rows, s)
    requires entry == MakeEntry(|Lookup(books, s)|, event) && Load(Dump(entry)) == None
    ensures LoadMany(OrderBySeq(SelectRows(rows + [EntryRow(entry)], ScopeCond(s)))) == Raises
  {
    LoggedRows(books, rows, event, entry, s);
    LastBadBlob(SelectRows(rows, ScopeCond(s)), EntryRow(entry));
  }

  /** An event that does not load again is taken by the ledger, and then reading its scope raises. */
  lemma UnloadableLog(m: Memory, db: Database, event: Value)
    requires HasScope(event) && Committed(event) && LedgerSim(m.books, Lookup(db, TLedger), ScopeOf(event))
    requires Load(Dump(MakeEntry(|Lookup(m.books, ScopeOf(event))|, event))) == None
    ensures SqlAnswer(SqlStep(db, Log(event)).0, ReadLedger(ScopeOf(event))) == Raises
  {
    var entry := MakeEntry(|Lookup(m.books, ScopeOf(event))|, event);
    LedgerAfter(m, db, event, entry);
    UnloadableRead(m.books, Lookup(db, TLedger), event, entry, ScopeOf(event));
    LedgerRead(SqlStep(db, Log(event)).0, Lookup(db, TLedger) + [EntryRow(entry)], ScopeOf(event));
  }

  lemma LedgerAfter(m: Memory, db: Database, event: Value, entry: Value)
    requires HasScope(event) && Committed(event) && LedgerSim(m.books, Lookup(db, TLedger), ScopeOf(event))
    requires entry == MakeEntry(|Lookup(m.books, ScopeOf(event))|, event)
    ensures Lookup(SqlStep(db, Log(event)).0, TLedger) == Lookup(db, TLedger) + [EntryRow(entry)]
  {
    LogOutcome(m, db, event);
  }

  lemma LedgerRead(db: Database, rows: seq<Row>, s: Scope)
    requires Lookup(db, TLedger) == rows
    ensures SqlAnswer(db, ReadLedger(s)) == LoadMany(OrderBySeq(SelectRows(rows, ScopeCond(s))))
  {
  }

  /** An event that is accepted keeps the backends in agreement exactly when it is made of registered names. */
  lemma LogAgreementIsExact(m: Memory, db: Database, event: Value)
    requires Sim(m, db) && KeysUnique(m) && HasScope(event) && MemoryStep(m, Log(event)).1
    requires event.Obj? && event.cls == RevisionEvent && Built(DOMAIN, event)
    ensures Agree(MemoryStep(m, Log(event)).0, SqlStep(db, Log(event)).0) <==> Registered(DOMAIN, event)
  {
    var m', db' := MemoryStep(m, Log(event)).0, SqlStep(db, Log(event)).0;
    if Registered(DOMAIN, event) {
      StepAgrees(m, db, Log(event));
      forall q | IsQuery(q) ensures SqlAnswer(db', q) == MemoryAnswer(m', q) {
        AnswersAgree(m', db', q);
      }
    } else {
      assert LedgerSim(m.books, Lookup(db, TLedger), ScopeOf(event));
      UnloadableEntry(|Lookup(m.books, ScopeOf(event))|, event);
      UnloadableLog(m, db, event);
      assert IsQuery(ReadLedger(ScopeOf(event)));
    }
  }

  // ----- evidence records with a standing or a source reference -----

  /** An evidence record as its constructor and annotations leave it: everything but the reference to the
      observed interaction and the standing is made of registered names. */
  ghost predicate OrdinaryEvidence(v: Value) { OrdinaryIn(DOMAIN, v) }

  ghost predicate OrdinaryIn(d: Declarations, v: Value) {
    && v.Obj? && v.cls == EvidenceRecord && Built(d, v)
    && (forall k :: k in v.fields && k != SourceRef && k != Standing ==> Registered(d, v.fields[k]))
    && (Get(v, SourceRef) == PyNone || (Get(v, SourceRef).Obj? && Get(v, SourceRef).cls == SourceObservationRef))
    && (Get(v, Standing) == PyNone || (Get(v, Standing).Obj? && Get(v, Standing).cls == EvidenceStanding))
  }

  lemma RegisteredObject(d: Declarations, c: Class, f: map<Field, Value>, good: set<Field>)
    requires good == set k | k in f && Registered(d, f[k])
    ensures Registered(d, Obj(c, f)) <==> d.classes(c) && f.Keys <= good
  {
  }

  lemma RegisteredBut(d: Declarations, c: Class, f: map<Field, Value>, a: Field, b: Field)
    requires d.classes(c) && a in f && b in f
    requires forall k :: k in f && k != a && k != b ==> Registered(d, f[k])
    ensures Registered(d, Obj(c, f)) <==> Registered(d, f[a]) && Registered(d, f[b])
  {
    var good := set k | k in f && Registered(d, f[k]);
    RegisteredObject(d, c, f, good);
    assert forall k :: k in f && k != a && k != b ==> k in good;
  }

  lemma NoneOrLost(d: Declarations, v: Value, c: Class)
    requires v == PyNone || (v.Obj? && v.cls == c)
    requires !d.classes(c)
    ensures Registered(d, v) <==> v == PyNone
  {
  }

  lemma EvidenceHas(v: Value)
    requires v.Obj? && v.cls == EvidenceRecord && Built(DOMAIN, v)
    ensures SourceRef in v.fields && Standing in v.fields
  {
    assert v.fields.Keys == Schema(EvidenceRecord).Keys;
  }

  /** What a caller can check before the call: such a record can be read back exactly when it carries
      neither a source reference nor a standing. */
  lemma EvidenceLoads(v: Value)
    requires OrdinaryEvidence(v)
    ensures Registered(DOMAIN, v) <==> Get(v, SourceRef) == PyNone && Get(v, Standing) == PyNone
    ensures Loads(v) <==> Get(v, SourceRef) == PyNone && Get(v, Standing) == PyNone
  {
    EvidenceHas(v);
    NoneOrLost(DOMAIN, Get(v, SourceRef), SourceObservationRef);
    NoneOrLost(DOMAIN, Get(v, Standing), EvidenceStanding);
    RegisteredBut(DOMAIN, EvidenceRecord, v.fields, SourceRef, Standing);
    LoadDump(v);
  }

  /** So it is with the two backends after it was added. */
  lemma EvidenceAgreement(m: Memory, db: Database, v: Value)
    requires Sim(m, db) && KeysUnique(m) && OrdinaryEvidence(v) && Typed(TEvidence, v)
    requires forall y :: y in Lookup(m.recs, TPredictions) ==> Typed(TPredictions, y)
    requires MemoryStep(m, Record(TEvidence, v)).1
    ensures Agree(MemoryStep(m, Record(TEvidence, v)).0, SqlStep(db, Record(TEvidence, v)).0) <==>
            Get(v, SourceRef) == PyNone && Get(v, Standing) == PyNone
  {
    AgreementIsExact(m, db, TEvidence, v);
    EvidenceLoads(v);
  }

  lemma ObjectBuilds(d: Declarations, c: Class, f: map<Field, Value>)
    requires f.Keys == d.schema(c).Keys && d.accepts(c, f) && forall k :: k in f ==> Built(d, f[k])
    ensures Built(d, Obj(c, f))
  {
  }

  /** The standing of an instruction Sanuvia gave. */
  const SANUVIA_STANDING: map<Field, Value> := map[
    SourceKind := Enum(EvidenceSourceKind, SANUVIA), SubjectKind := Enum(EvidenceSubjectKind, NONE),
    Role := Enum(EvidenceRole, META_INSTRUCTION), SourceId := PyNone, SubjectId := PyNone]

  lemma StandingKeys()
    ensures SANUVIA_STANDING.Keys == Schema(EvidenceStanding).Keys
  {
  }

  lemma StandingParts(k: Field)
    requires k in SANUVIA_STANDING
    ensures Built(DOMAIN, SANUVIA_STANDING[k])
  {
  }

  lemma StandingBuilds()
    ensures Built(DOMAIN, Obj(EvidenceStanding, SANUVIA_STANDING))
  {
    StandingKeys();
    forall k | k in SANUVIA_STANDING ensures Built(DOMAIN, SANUVIA_STANDING[k]) {
      StandingParts(k);
    }
    ObjectBuilds(DOMAIN, EvidenceStanding, SANUVIA_STANDING);
  }

  function Rated(c: Class): Value { Obj(c, map[Magnitude := Float(0.5)]) }

  const SOURCED: map<Field, Value> :=
    map[Source := Str("t"), Confidence := Rated(ProvenanceConfidence), AcquisitionMetadata := Tuple([])]

  lemma RatedBuilds(c: Class)
    requires IsUncertainty(c)
    ensures Built(DOMAIN, Rated(c)) && Registered(DOMAIN, Rated(c))
  {
    ObjectIsBuilt(DOMAIN, c, map[Magnitude := Float(0.5)]);
  }

  lemma SourcedBuilds()
    ensures Built(DOMAIN, Obj(Provenance, SOURCED)) && Registered(DOMAIN, Obj(Provenance, SOURCED))
  {
    RatedBuilds(ProvenanceConfidence);
    assert SOURCED.Keys == Schema(Provenance).Keys && Arg(SOURCED, Source) == Str("t") && |"t"| == 1;
    ObjectIsBuilt(DOMAIN, Provenance, SOURCED);
  }

  /** An evidence record of nothing but registered names, save for its standing. */
  function StandingEvidence(id: string, standing: Value): map<Field, Value> {
    map[Id := Str(id), SubjectId := Str("s"), EvidenceClassField := Enum(EvidenceClass, NARRATIVE), Content := Str("c"),
        ProvenanceField := Obj(Provenance, SOURCED), Reliability := Rated(EvidenceReliability),
        ClassificationConfidenceField := Rated(ClassificationConfidence), OccurredAt := Time("2024-01-01T00:00:00"),
        OriginRef := PyNone, SpaceId := Str(DEFAULT_SPACE), ActorId := PyNone, SourceRef := PyNone,
        Standing := standing]
  }

  lemma PlainBuilds(d: Declarations, v: Value)
    requires v.PyNone? || v.Str? || v.Time?
    ensures Built(d, v) && Registered(d, v)
  {
  }

  lemma ClassBuilds()
    ensures Built(DOMAIN, Enum(EvidenceClass, NARRATIVE)) && Registered(DOMAIN, Enum(EvidenceClass, NARRATIVE))
  {
  }

  lemma PlainParts(id: string, standing: Value, k: Field)
    requires k in StandingEvidence(id, standing)
    requires k !in {Standing, EvidenceClassField, ProvenanceField, Reliability, ClassificationConfidenceField}
    ensures var v := StandingEvidence(id, standing)[k]; v.PyNone? || v.Str? || v.Time?
  {
  }

  lemma CompoundAre(id: string, standing: Value)
    ensures var f := StandingEvidence(id, standing);
            && f[ProvenanceField] == Obj(Provenance, SOURCED) && f[Reliability] == Rated(EvidenceReliability)
            && f[ClassificationConfidenceField] == Rated(ClassificationConfidence)
            && f[EvidenceClassField] == Enum(EvidenceClass, NARRATIVE)
  {
  }

  lemma StandingEvidencePart(id: string, standing: Value, f: map<Field, Value>, k: Field)
    requires f == StandingEvidence(id, standing) && k in f && k != Standing
    ensures Built(DOMAIN, f[k]) && Registered(DOMAIN, f[k])
  {
    CompoundAre(id, standing);
    if k == ProvenanceField {
      SourcedBuilds();
    } else if k == Reliability {
      RatedBuilds(EvidenceReliability);
    } else if k == ClassificationConfidenceField {
      RatedBuilds(ClassificationConfidence);
    } else if k == EvidenceClassField {
      ClassBuilds();
    } else {
      PlainParts(id, standing, k);
      PlainBuilds(DOMAIN, f[k]);
    }
  }

  lemma StandingEvidenceFits(id: string, standing: Value)
    ensures StandingEvidence(id, standing).Keys == Schema(EvidenceRecord).Keys
    ensures Accepts(EvidenceRecord, StandingEvidence(id, standing))
  {
    var f := StandingEvidence(id, standing);
    assert Arg(f, Content) == Str("c") && |"c"| == 1;
    assert Arg(f, SpaceId) == Str(DEFAULT_SPACE) && |DEFAULT_SPACE| == 13;
  }

  lemma StandingEvidenceParts(id: string, standing: Value)
    requires Built(DOMAIN, standing)
    ensures forall k :: k in StandingEvidence(id, standing) ==>
              var v := StandingEvidence(id, standing)[k]; Built(DOMAIN, v) && (k != Standing ==> Registered(DOMAIN, v))
  {
    var f := StandingEvidence(id, standing);
    forall k | k in f ensures Built(DOMAIN, f[k]) && (k != Standing ==> Registered(DOMAIN, f[k])) {
      if k != Standing {
        StandingEvidencePart(id, standing, f, k);
      }
    }
  }

  lemma OrdinaryBuilds(d: Declarations, f: map<Field, Value>)
    requires f.Keys == d.schema(EvidenceRecord).Keys && d.accepts(EvidenceRecord, f)
    requires forall k :: k in f ==> Built(d, f[k]) && (k != Standing ==> Registered(d, f[k]))
    requires Arg(f, SourceRef) == PyNone
    requires Arg(f, Standing) == PyNone || (Arg(f, Standing).Obj? && Arg(f, Standing).cls == EvidenceStanding)
    ensures OrdinaryIn(d, Obj(EvidenceRecord, f))
  {
    ObjectBuilds(d, EvidenceRecord, f);
  }

  lemma StandingEvidenceArgs(id: string, standing: Value)
    ensures var f := StandingEvidence(id, standing); Arg(f, SourceRef) == PyNone && Arg(f, Standing) == standing
  {
  }

  lemma StandingEvidenceIsOrdinary(id: string, standing: Value)
    requires Built(DOMAIN, standing) && (standing == PyNone || (standing.Obj? && standing.cls == EvidenceStanding))
    ensures OrdinaryEvidence(Obj(EvidenceRecord, StandingEvidence(id, standing)))
  {
    StandingEvidenceFits(id, standing);
    StandingEvidenceParts(id, standing);
    StandingEvidenceArgs(id, standing);
    OrdinaryBuilds(DOMAIN, StandingEvidence(id, standing));
  }

  lemma StandingEvidenceTyped(id: string, standing: Value)
    ensures Typed(TEvidence, Obj(EvidenceRecord, StandingEvidence(id, standing)))
  {
  }

  lemma UnloadableFresh(t: Table, v: Value)
    requires !t.TLedger? && Typed(t, v) && Load(Dump(v)) == None
    ensures SqlStep(map[], Record(t, v)).1
    ensures SqlAnswer(SqlStep(map[], Record(t, v)).0, ReadBack(t, v)) == Raises
  {
    UnloadableRaises(map[], [], t, v);
  }

  lemma UnloadableEvidence(v: Value)
    requires OrdinaryEvidence(v) && Get(v, Standing) != PyNone && Typed(TEvidence, v)
    ensures SqlStep(map[], Record(TEvidence, v)).1
    ensures SqlAnswer(SqlStep(map[], Record(TEvidence, v)).0, ReadBack(TEvidence, v)) == Raises
  {
    EvidenceLoads(v);
    LoadDump(v);
    UnloadableFresh(TEvidence, v);
  }

  /** One such record, for every id: the fresh database takes it and can then not give it back. */
  lemma StandingIsLost(id: string)
    ensures var lost := Obj(EvidenceRecord, StandingEvidence(id, Obj(EvidenceStanding, SANUVIA_STANDING)));
            && OrdinaryEvidence(lost) && Typed(TEvidence, lost)
            && SqlStep(map[], Record(TEvidence, lost)).1
            && SqlAnswer(SqlStep(map[], Record(TEvidence, lost)).0, ReadBack(TEvidence, lost)) == Raises
  {
    var standing := Obj(EvidenceStanding, SANUVIA_STANDING);
    StandingBuilds();
    StandingEvidenceIsOrdinary(id, standing);
    StandingEvidenceTyped(id, standing);
    UnloadableEvidence(Obj(EvidenceRecord, StandingEvidence(id, standing)));
  }

  /** Without the standing it can. */
  lemma PlainIsKept(id: string)
    ensures Loads(Obj(EvidenceRecord, StandingEvidence(id, PyNone)))
  {
    StandingEvidenceIsOrdinary(id, PyNone);
    EvidenceLoads(Obj(EvidenceRecord, StandingEvidence(id, PyNone)));
  }
}
