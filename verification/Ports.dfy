/** What the repository ports promise, all stores taken together: a memory of records, the calls that write
    to it, and the queries it answers. */
module Ports {
  import opened Domain
  import opened Tables
  import opened Containers
  import opened Ledger

  datatype Memory = Memory(recs: map<Table, seq<Value>>, books: Books)

  /** How the in-memory store of each table takes a write. */
  function MemoryKind(t: Table): Kind {
    match t
    case TEvidence => InsertOnly({CId})
    case TInference => InsertOnly({CId})
    case TWorldModels => InsertOnly({CSpace, CSubject, CVersion})
    case TLedger => InsertOnly({CSpace, CSubject, CSeq})
    case TCurrentPointer => Upsert({CSpace, CSubject})
    case TAnomalies => Upsert({CId})
    case TProvenance => Upsert({CId})
    case TPredictions => Upsert({CId})
    case _ => Append
  }

  /** A write through a port: a record into its table, or an event into the ledger. */
  datatype Op = Record(t: Table, v: Value) | Log(event: Value)

  predicate IsOp(op: Op) {
    match op
    case Record(t, _) => !t.TLedger?
    case Log(event) => HasScope(event)
  }

  /** The state after a call, and whether it was accepted. */
  function MemoryStep(m: Memory, op: Op): (Memory, bool)
    requires IsOp(op)
  {
    match op
    case Record(t, v) =>
      var w := Write(MemoryKind(t), Lookup(m.recs, t), v);
      if w.Some? then (m.(recs := m.recs[t := w.value]), true) else (m, false)
    case Log(event) =>
      var w := LedgerAppend(m.books, event);
      if w.Some? then (m.(books := w.value), true) else (m, false)
  }

  /** The shared query methods. */
  datatype Query =
    | GetOne(t: Table, cond: Cond)
    | Newest(t: Table, cond: Cond)
    | ListAll(t: Table, cond: Cond)
    | ListLatest(t: Table, scope: Scope, c: Column)
    | ReadLedger(scope: Scope)
    | ReadSince(scope: Scope, after: int)
    | CurrentModel(scope: Scope)

  datatype Answer = One(r: Option<Value>) | Many(s: seq<Value>) | Raises

  /** The columns each table's getter looks up by; empty where there is no getter. */
  function GetKey(t: Table): set<Column> {
    match t
    case THypotheses => {CRecordId, CSpace}
    case TWorldModels => {CSpace, CSubject, CVersion}
    case TCurrentPointer => {CSpace, CSubject}
    case TInquiries => {}
    case TRecognition => {}
    case TDependencies => {}
    case TLedger => {}
    case _ => {CId}
  }

  /** The query methods the two backends share. */
  predicate IsQuery(q: Query) {
    match q
    case GetOne(t, cond) => GetKey(t) != {} && cond.Keys == GetKey(t)
    case Newest(t, cond) =>
      || (t.THypotheses? && cond.Keys == {CHypothesisId, CSubject, CSpace})
      || (t.TInquiries? && cond.Keys == {CId})
    case ListAll(t, cond) =>
      || (t.THypotheses? && cond.Keys == {CHypothesisId, CSubject, CSpace})
      || (t.TInquiries? && cond.Keys == {CId})
      || (t.TDependencies? && (cond.Keys == {CFromRef} || cond.Keys == {CToRef}))
      || ((t.TEvidence? || t.TInference? || t.TPredictions? || t.TRecognition?) && cond.Keys == {CSpace, CSubject})
    case ListLatest(t, scope, c) => (t.THypotheses? && c == CHypothesisId) || (t.TInquiries? && c == CId)
    case _ => true
  }

  function MemoryAnswer(m: Memory, q: Query): Answer {
    match q
    case GetOne(t, cond) => One(First(Select(Lookup(m.recs, t), cond)))
    case Newest(t, cond) => One(Last(Select(Lookup(m.recs, t), cond)))
    case ListAll(t, cond) => Many(Select(Lookup(m.recs, t), cond))
    case ListLatest(t, scope, c) => Many(LatestPer(Select(Lookup(m.recs, t), ScopeCond(scope)), FieldOf(c)))
    case ReadLedger(scope) => Many(Lookup(m.books, scope))
    case ReadSince(scope, after) => Many(Since(Lookup(m.books, scope), after))
    case CurrentModel(scope) =>
      var pointer := First(Select(Lookup(m.recs, TCurrentPointer), ScopeCond(scope)));
      if pointer.None? then One(None)
      else One(First(Group(Select(Lookup(m.recs, TWorldModels), ScopeCond(scope)), ModelVersionId,
                           Get(pointer.value, ModelVersionId))))
  }

  // ----- one store's share of the memory -----

  /** The table holds exactly these records. */
  predicate Stored(m: Memory, t: Table, s: seq<Value>) { Lookup(m.recs, t) == s }

  /** A store that goes from one list of records to the other, and answers `ok`, takes the write as every
      memory does that holds the same records in that table. */
  ghost predicate Takes(t: Table, v: Value, before: seq<Value>, after: seq<Value>, ok: bool)
    requires !t.TLedger?
  {
    forall m: Memory :: Stored(m, t, before) ==>
      MemoryStep(m, Record(t, v)).1 == ok && Stored(MemoryStep(m, Record(t, v)).0, t, after)
  }

  lemma TakesWrite(t: Table, v: Value, before: seq<Value>)
    requires !t.TLedger?
    ensures var w := Write(MemoryKind(t), before, v);
            Takes(t, v, before, if w.Some? then w.value else before, w.Some?)
  {
  }

  lemma Took(t: Table, v: Value, before: seq<Value>, after: seq<Value>, ok: bool)
    requires !t.TLedger?
    requires var w := Write(MemoryKind(t), before, v); ok == w.Some? && after == if ok then w.value else before
    ensures Takes(t, v, before, after, ok)
  {
  }

  /** What a store holding these records answers is what every such memory answers. */
  ghost predicate Gives(t: Table, s: seq<Value>, q: Query, a: Answer) {
    forall m: Memory :: Stored(m, t, s) ==> MemoryAnswer(m, q) == a
  }

  /** The same for the ledger. */
  ghost predicate Logs(event: Value, before: Books, after: Books, ok: bool)
    requires HasScope(event)
  {
    forall m: Memory :: m.books == before ==> MemoryStep(m, Log(event)) == (m.(books := after), ok)
  }

  ghost predicate Reads(books: Books, q: Query, a: Answer) {
    forall m: Memory :: m.books == books ==> MemoryAnswer(m, q) == a
  }
}
