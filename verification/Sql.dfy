/** Tables as row sequences in rowid order, and the statements the stores run on them. */
module Sql {
  import opened Domain
  import opened Codec
  import opened Declared
  import opened Tables
  import opened Ledger

  /** Filter columns beside an encoded blob. */
  datatype Row = Row(cells: map<Column, Value>, json: Json)

  function CellAt(r: Row, c: Column): Value { if c in r.cells then r.cells[c] else PyNone }

  /** WHERE: a conjunction of column equalities. */
  predicate RowMatches(r: Row, cond: Cond) {
    forall c :: c in cond ==> CellAt(r, c) == Str(cond[c])
  }

  function SelectRows(rows: seq<Row>, cond: Cond): seq<Row> {
    if rows == [] then []
    else SelectRows(rows[..|rows| - 1], cond) + if RowMatches(rows[|rows| - 1], cond) then [rows[|rows| - 1]] else []
  }

  predicate SameCells(key: set<Column>, a: Row, b: Row) {
    forall c :: c in key ==> CellAt(a, c) == CellAt(b, c)
  }

  /** ON CONFLICT (key) DO UPDATE SET json: the row keeps its place and its cells. */
  function PutRow(rows: seq<Row>, key: set<Column>, r: Row): seq<Row> {
    if rows == [] then [r]
    else if SameCells(key, rows[0], r) then [rows[0].(json := r.json)] + rows[1..]
    else [rows[0]] + PutRow(rows[1..], key, r)
  }

  /** One statement; `None` is an IntegrityError, which leaves the table alone. */
  function WriteRow(k: Kind, rows: seq<Row>, r: Row): Option<seq<Row>> {
    match k
    case InsertOnly(key) => if exists x :: x in rows && SameCells(key, x, r) then None else Some(rows + [r])
    case Append => Some(rows + [r])
    case Upsert(key) => Some(PutRow(rows, key, r))
  }

  function Dump(v: Value): Json { Encode(v) }

  function Load(j: Json): Option<Value> { Decode(DOMAIN, j) }

  /** Decoding every blob of a result set; one bad blob raises for the whole call. */
  function LoadAll(rows: seq<Row>): Option<seq<Value>> {
    if rows == [] then Some([]) else
    var init, last := LoadAll(rows[..|rows| - 1]), Load(rows[|rows| - 1].json);
    if init.Some? && last.Some? then Some(init.value + [last.value]) else None
  }

  /** The columns of each table; a ledger row takes its scope from the event it holds. */
  function ColumnsOf(t: Table): set<Column> {
    match t
    case THypotheses => {CRecordId, CHypothesisId, CSpace, CSubject}
    case TWorldModels => {CSpace, CSubject, CVersion}
    case TCurrentPointer => {CSpace, CSubject}
    case TLedger => {CSpace, CSubject, CSeq}
    case TAnomalies => {CId}
    case TProvenance => {CId}
    case TRecognition => {CSpace, CSubject}
    case TDependencies => {CFromRef, CToRef}
    case _ => {CId, CSpace, CSubject}
  }

  function SqlKind(t: Table): Kind {
    match t
    case TEvidence => InsertOnly({CId})
    case TInference => InsertOnly({CId})
    case TWorldModels => InsertOnly({CSpace, CSubject, CVersion})
    case TLedger => InsertOnly({CSpace, CSubject, CSeq})
    case TCurrentPointer => Upsert({CSpace, CSubject})
    case TAnomalies => Upsert({CId})
    case TProvenance => Upsert({CId})
    case _ => Append
  }

  function RowFor(cols: set<Column>, v: Value): Row {
    Row(map c | c in cols :: Get(v, FieldOf(c)), Dump(v))
  }

  function EntryRow(entry: Value): Row {
    var event := EventOf(entry);
    Row(map[CSpace := Get(event, SpaceId), CSubject := Get(event, SubjectId), CSeq := Get(entry, SequenceNo)],
        Dump(entry))
  }

  /** The blob reads back as the record's own blob does. */
  predicate ReadsAs(j: Json, v: Value) { Load(j) == Load(Dump(v)) }

  /** A row stands for a record: the filter columns repeat its attributes, the blob reads as it. */
  predicate RowIs(cols: set<Column>, r: Row, v: Value) {
    ReadsAs(r.json, v) && forall c :: c in cols ==> CellAt(r, c) == Get(v, FieldOf(c))
  }

  predicate RowsAre(cols: set<Column>, rows: seq<Row>, s: seq<Value>) {
    |rows| == |s| && forall i :: 0 <= i < |s| ==> RowIs(cols, rows[i], s[i])
  }

  /** What was stored comes back equal. */
  predicate Loads(v: Value) { Load(Dump(v)) == Some(v) }

  /** Exactly the objects of registered classes survive a visit to a blob; others raise on the way out. */
  lemma LoadDump(v: Value)
    requires Built(DOMAIN, v)
    ensures Loads(v) <==> Registered(DOMAIN, v)
    ensures !Loads(v) ==> Load(Dump(v)) == None
  {
    DomainIsCoherent();
    RoundTrip(DOMAIN, v);
  }

  lemma RowForIs(cols: set<Column>, v: Value)
    ensures RowIs(cols, RowFor(cols, v), v)
  {
  }

  lemma RowMatchesRecord(cols: set<Column>, r: Row, v: Value, cond: Cond)
    requires cond.Keys <= cols && RowIs(cols, r, v)
    ensures RowMatches(r, cond) <==> Matches(v, cond)
  {
    assert forall c :: c in cond ==> CellAt(r, c) == Get(v, FieldOf(c));
  }

  lemma SameCellsSameKey(cols: set<Column>, key: set<Column>, p: Row, q: Row, a: Value, b: Value)
    requires key <= cols && RowIs(cols, p, a) && RowIs(cols, q, b)
    ensures SameCells(key, p, q) <==> SameKey(key, a, b)
  {
    assert forall c :: c in key ==> CellAt(p, c) == Get(a, FieldOf(c));
    assert forall c :: c in key ==> CellAt(q, c) == Get(b, FieldOf(c));
  }

  lemma AppendRowsAre(cols: set<Column>, rows: seq<Row>, s: seq<Value>, r: Row, v: Value)
    requires RowsAre(cols, rows, s) && RowIs(cols, r, v)
    ensures RowsAre(cols, rows + [r], s + [v])
  {
  }

  lemma PrefixRowsAre(cols: set<Column>, rows: seq<Row>, s: seq<Value>)
    requires RowsAre(cols, rows, s) && s != []
    ensures RowsAre(cols, rows[..|s| - 1], s[..|s| - 1]) && RowIs(cols, rows[|s| - 1], s[|s| - 1])
  {
  }

  /** Selecting rows is selecting the records they stand for. */
  lemma {:induction false} SelectRowsAre(cols: set<Column>, rows: seq<Row>, s: seq<Value>, cond: Cond)
    requires cond.Keys <= cols && RowsAre(cols, rows, s)
    ensures RowsAre(cols, SelectRows(rows, cond), Select(s, cond))
    decreases |s|
  {
    if s != [] {
      var n := |s| - 1;
      PrefixRowsAre(cols, rows, s);
      SelectRowsAre(cols, rows[..n], s[..n], cond);
      RowMatchesRecord(cols, rows[n], s[n], cond);
      if Matches(s[n], cond) {
        AppendRowsAre(cols, SelectRows(rows[..n], cond), Select(s[..n], cond), rows[n], s[n]);
      }
    }
  }

  lemma {:induction false} LoadRowsAre(cols: set<Column>, rows: seq<Row>, s: seq<Value>)
    requires RowsAre(cols, rows, s) && forall i :: 0 <= i < |s| ==> Loads(s[i])
    ensures LoadAll(rows) == Some(s)
    decreases |s|
  {
    if s != [] {
      var n := |s| - 1;
      LoadRowsAre(cols, rows[..n], s[..n]);
      assert RowIs(cols, rows[n], s[n]) && Loads(s[n]);
      assert s == s[..n] + [s[n]];
    }
  }

  lemma UpsertedRowIs(cols: set<Column>, r: Row, q: Row, x: Value, v: Value)
    requires RowIs(cols, r, x) && RowIs(cols, q, v) && SameKey(cols, x, v)
    ensures RowIs(cols, r.(json := q.json), v)
  {
    assert forall c :: c in cols ==> CellAt(r, c) == Get(x, FieldOf(c));
    assert forall c :: c in cols ==> CellAt(r.(json := q.json), c) == CellAt(r, c);
  }

  lemma ConsRowsAre(cols: set<Column>, r: Row, rows: seq<Row>, v: Value, s: seq<Value>)
    requires RowIs(cols, r, v) && RowsAre(cols, rows, s)
    ensures RowsAre(cols, [r] + rows, [v] + s)
  {
  }

  /** The conflict clause replaces the blob where the record would be replaced. */
  lemma {:induction false} PutRowAre(cols: set<Column>, rows: seq<Row>, s: seq<Value>, r: Row, v: Value)
    requires RowsAre(cols, rows, s) && RowIs(cols, r, v)
    ensures RowsAre(cols, PutRow(rows, cols, r), Put(s, cols, v))
    decreases |s|
  {
    if s == [] {
    } else {
      assert RowIs(cols, rows[0], s[0]);
      assert RowsAre(cols, rows[1..], s[1..]);
      SameCellsSameKey(cols, cols, rows[0], r, s[0], v);
      if SameKey(cols, s[0], v) {
        UpsertedRowIs(cols, rows[0], r, s[0], v);
        ConsRowsAre(cols, rows[0].(json := r.json), rows[1..], v, s[1..]);
      } else {
        PutRowAre(cols, rows[1..], s[1..], r, v);
        ConsRowsAre(cols, rows[0], PutRow(rows[1..], cols, r), s[0], Put(s[1..], cols, v));
      }
    }
  }

  lemma ClashesAre(cols: set<Column>, key: set<Column>, rows: seq<Row>, s: seq<Value>, r: Row, v: Value)
    requires key <= cols && RowsAre(cols, rows, s) && RowIs(cols, r, v)
    ensures (exists x :: x in rows && SameCells(key, x, r)) <==> (exists x :: x in s && SameKey(key, x, v))
  {
    if x :| x in rows && SameCells(key, x, r) {
      var i :| 0 <= i < |rows| && rows[i] == x;
      SameCellsSameKey(cols, key, rows[i], r, s[i], v);
      assert s[i] in s;
    }
    if x :| x in s && SameKey(key, x, v) {
      var i :| 0 <= i < |s| && s[i] == x;
      SameCellsSameKey(cols, key, rows[i], r, s[i], v);
      assert rows[i] in rows;
    }
  }

  /** A statement on the rows is the write on the records, refusals included. */
  lemma WriteRowsAre(t: Table, rows: seq<Row>, s: seq<Value>, v: Value)
    requires !t.TLedger? && RowsAre(ColumnsOf(t), rows, s)
    ensures var r, w := WriteRow(SqlKind(t), rows, RowFor(ColumnsOf(t), v)), Write(SqlKind(t), s, v);
            r.Some? == w.Some? && (w.Some? ==> RowsAre(ColumnsOf(t), r.value, w.value))
  {
    var cols, r := ColumnsOf(t), RowFor(ColumnsOf(t), v);
    RowForIs(cols, v);
    match SqlKind(t)
    case InsertOnly(key) =>
      ClashesAre(cols, key, rows, s, r, v);
      AppendRowsAre(cols, rows, s, r, v);
    case Append => AppendRowsAre(cols, rows, s, r, v);
    case Upsert(key) => PutRowAre(cols, rows, s, r, v);
  }
}
