/** Whole runs of the two backends: when they agree, and exactly when they stop agreeing. */
module Backends {
  import opened Domain
  import opened Codec
  import opened Declared
  import opened Tables
  import opened Containers
  import opened Keyed
  import opened Ledger
  import opened Sql
  import opened Ports
  import opened Refinement

  const EMPTY_MEMORY := Memory(map[], map[])

  /** Attributes kept in columns are strings. */
  predicate Typed(t: Table, v: Value) { forall c :: c in ColumnsOf(t) ==> Get(v, FieldOf(c)).Str? }

  /** What a caller of the port has to respect for the backends to stay interchangeable: objects
      of registered classes, hypothesis record ids not reused for other content, prediction ids
      not reused at all. */
  ghost predicate Fits(m: Memory, op: Op)
    requires IsOp(op)
  {
    match op
    case Record(t, v) =>
      && Built(DOMAIN, v) && Registered(DOMAIN, v)
      && (t.THypotheses? ==>
            forall x :: x in Lookup(m.recs, t) && SameKey(GetKey(t), x, v) ==> x == v)
      && (t.TPredictions? ==>
            forall x :: x in Lookup(m.recs, t) ==> !SameKey(GetKey(t), x, v))
    case Log(event) =>
      event.Obj? && event.cls == RevisionEvent && Built(DOMAIN, event) && Registered(DOMAIN, event)
  }

  lemma EventHasTime(event: Value)
    requires event.Obj? && event.cls == RevisionEvent && Built(DOMAIN, event)
    ensures CreatedAt in event.fields
  {
    assert event.fields.Keys == Schema(RevisionEvent).Keys;
  }

  lemma EntryAccepted(n: nat, event: Value, f: map<Field, Value>)
    requires Committed(event) && f == MakeEntry(n, event).fields
    ensures Accepts(RevisionLedgerEntry, f) && f.Keys == Schema(RevisionLedgerEntry).Keys
  {
    assert f.Keys == {SequenceNo, RevisionEventField, AppendedAt};
  }

  lemma ObjectIsBuilt(d: Declarations, c: Class, f: map<Field, Value>)
    requires f.Keys == d.schema(c).Keys && d.accepts(c, f) && d.classes(c)
    requires forall k :: k in f ==> Built(d, f[k]) && Registered(d, f[k])
    ensures Built(d, Obj(c, f)) && Registered(d, Obj(c, f))
  {
  }

  lemma EntryParts(d: Declarations, n: nat, event: Value, f: map<Field, Value>)
    requires event.Obj? && CreatedAt in event.fields && f == MakeEntry(n, event).fields
    requires Built(d, event) && Registered(d, event)
    ensures forall k :: k in f ==> Built(d, f[k]) && Registered(d, f[k])
  {
  }

  lemma EntryIsBuilt(n: nat, event: Value)
    requires event.Obj? && event.cls == RevisionEvent && Committed(event) && CreatedAt in event.fields
    requires Built(DOMAIN, event) && Registered(DOMAIN, event)
    ensures Built(DOMAIN, MakeEntry(n, event)) && Registered(DOMAIN, MakeEntry(n, event))
  {
    EntryAccepted(n, event, MakeEntry(n, event).fields);
    EntryParts(DOMAIN, n, event, MakeEntry(n, event).fields);
    ObjectIsBuilt(DOMAIN, RevisionLedgerEntry, MakeEntry(n, event).fields);
  }

  lemma FitsEvent(event: Value)
    requires event.Obj? && event.cls == RevisionEvent && Built(DOMAIN, event) && Registered(DOMAIN, event)
    ensures EntryLoads(event)
  {
    if Committed(event) {
      forall n: nat ensures Loads(MakeEntry(n, event)) {
        EventHasTime(event);
        EntryIsBuilt(n, event);
        LoadDump(MakeEntry(n, event));
      }
    }
  }

  lemma CommittedParts(d: Declarations, f: map<Field, Value>, to: Value)
    requires forall k :: k in f ==> Built(d, f[k]) && Registered(d, f[k])
    requires Built(d, to) && Registered(d, to) && Built(d, COMMITTED_STATUS) && Registered(d, COMMITTED_STATUS)
    ensures var g := f[Status := COMMITTED_STATUS][ToModelVersionId := to];
            forall k :: k in g ==> Built(d, g[k]) && Registered(d, g[k])
  {
  }

  lemma StatusBuilds()
    ensures Built(DOMAIN, COMMITTED_STATUS) && Registered(DOMAIN, COMMITTED_STATUS)
  {
  }

  lemma EventAccepted(f: map<Field, Value>, to: Value)
    requires f.Keys == Schema(RevisionEvent).Keys && Accepts(RevisionEvent, f) && to != PyNone
    ensures var g := f[Status := COMMITTED_STATUS][ToModelVersionId := to];
            g.Keys == f.Keys && Accepts(RevisionEvent, g)
  {
    assert Status in f && ToModelVersionId in f;
  }

  /** Committing meets what the event's constructor asks, and an event that may be logged may be once committed. */
  lemma CommitFits(m: Memory, event: Value, to: Value)
    requires HasScope(event) && Fits(m, Log(event)) && Built(DOMAIN, to) && Registered(DOMAIN, to)
    requires Commit(event, to).Some?
    ensures HasScope(Commit(event, to).value) && Fits(m, Log(Commit(event, to).value))
  {
    CommitThenAppend(map[], event, to);
    var f := event.fields;
    EventAccepted(f, to);
    StatusBuilds();
    CommittedParts(DOMAIN, f, to);
    ObjectIsBuilt(DOMAIN, RevisionEvent, f[Status := COMMITTED_STATUS][ToModelVersionId := to]);
  }

  ghost predicate Admissible(m: Memory, ops: seq<Op>)
    decreases |ops|
  {
    ops == [] ||
    (IsOp(ops[0]) && Fits(m, ops[0]) && Admissible(MemoryStep(m, ops[0]).0, ops[1..]))
  }

  /** The last state of a run and, per call, whether it was accepted. */
  function RunMemory(m: Memory, ops: seq<Op>): (Memory, seq<bool>)
    requires forall op :: op in ops ==> IsOp(op)
    decreases |ops|
  {
    if ops == [] then (m, []) else
    var (next, ok) := MemoryStep(m, ops[0]);
    var (end, rest) := RunMemory(next, ops[1..]);
    (end, [ok] + rest)
  }

  function RunSql(db: Database, ops: seq<Op>): (Database, seq<bool>)
    requires forall op :: op in ops ==> IsOp(op)
    decreases |ops|
  {
    if ops == [] then (db, []) else
    var (next, ok) := SqlStep(db, ops[0]);
    var (end, rest) := RunSql(next, ops[1..]);
    (end, [ok] + rest)
  }

  ghost predicate Agree(m: Memory, db: Database) {
    forall q :: IsQuery(q) ==> SqlAnswer(db, q) == MemoryAnswer(m, q)
  }

  lemma {:induction false} AdmissibleOps(m: Memory, ops: seq<Op>)
    requires Admissible(m, ops)
    ensures forall op :: op in ops ==> IsOp(op)
    decreases |ops|
  {
    if ops != [] {
      AdmissibleOps(MemoryStep(m, ops[0]).0, ops[1..]);
    }
  }

  /** With no prediction of this id, replacing by id and appending are the same write. */
  lemma FreshPrediction(s: seq<Value>, v: Value)
    requires forall x :: x in s ==> !SameKey({CId}, x, v)
    ensures Put(s, {CId}, v) == s + [v]
  {
    PutAt(s, {CId}, v, |s|);
  }

  lemma StepAgrees(m: Memory, db: Database, op: Op)
    requires Sim(m, db) && KeysUnique(m) && IsOp(op) && Fits(m, op)
    ensures SqlStep(db, op).1 == MemoryStep(m, op).1
    ensures Sim(MemoryStep(m, op).0, SqlStep(db, op).0)
    ensures KeysUnique(MemoryStep(m, op).0)
  {
    match op
    case Record(t, v) =>
      LoadDump(v);
      if t.TPredictions? {
        FreshPrediction(Lookup(m.recs, t), v);
      }
      RecordStep(m, db, t, v);
      UniqueStep(m, t, v);
    case Log(event) =>
      FitsEvent(event);
      LogStep(m, db, event);
  }

  /** From one database to the next, accepting or refusing: right for every memory the first one simulates
      and the call fits. */
  ghost predicate Carries(db: Database, op: Op, after: Database, ok: bool)
    requires IsOp(op)
  {
    forall m: Memory :: Sim(m, db) && KeysUnique(m) && Fits(m, op) ==>
      && ok == MemoryStep(m, op).1
      && Sim(MemoryStep(m, op).0, after) && KeysUnique(MemoryStep(m, op).0)
  }

  lemma StepCarries(db: Database, op: Op)
    requires IsOp(op)
    ensures Carries(db, op, SqlStep(db, op).0, SqlStep(db, op).1)
  {
    forall m: Memory | Sim(m, db) && KeysUnique(m) && Fits(m, op)
      ensures SqlStep(db, op).1 == MemoryStep(m, op).1
      ensures Sim(MemoryStep(m, op).0, SqlStep(db, op).0) && KeysUnique(MemoryStep(m, op).0)
    {
      StepAgrees(m, db, op);
    }
  }

  /** The answer of every memory the database simulates. */
  ghost predicate Answers(db: Database, q: Query, a: Answer) {
    forall m: Memory :: Sim(m, db) && KeysUnique(m) ==> a == MemoryAnswer(m, q)
  }

  lemma AnswerIsMemorys(db: Database, q: Query)
    requires IsQuery(q)
    ensures Answers(db, q, SqlAnswer(db, q))
  {
    forall m: Memory | Sim(m, db) && KeysUnique(m) ensures SqlAnswer(db, q) == MemoryAnswer(m, q) {
      AnswersAgree(m, db, q);
    }
  }

  lemma UniqueStep(m: Memory, t: Table, v: Value)
    requires KeysUnique(m) && !t.TLedger? && Fits(m, Record(t, v))
    ensures KeysUnique(MemoryStep(m, Record(t, v)).0)
  {
    var s := Lookup(m.recs, t);
    if t.TPredictions? {
      FreshPrediction(s, v);
    }
    if t.THypotheses? || t.TPredictions? {
      UniqueAppend(s, GetKey(t), v);
    }
  }

  lemma UniqueAppend(s: seq<Value>, key: set<Column>, v: Value)
    requires UniqueBy(s, key) && forall x :: x in s && SameKey(key, x, v) ==> x == v
    ensures UniqueBy(s + [v], key)
  {
    forall x, y | x in s + [v] && y in s + [v] && SameKey(key, x, y) ensures x == y {
      assert SameKey(key, y, x);
    }
  }

  /** For every run of admissible calls, the two backends accept and refuse the same calls, and at
      the end every shared query answers the same. */
  lemma {:induction false} BackendsAgree(m: Memory, db: Database, ops: seq<Op>)
    requires Sim(m, db) && KeysUnique(m) && Admissible(m, ops)
    requires forall op :: op in ops ==> IsOp(op)
    ensures RunSql(db, ops).1 == RunMemory(m, ops).1
    ensures Sim(RunMemory(m, ops).0, RunSql(db, ops).0) && KeysUnique(RunMemory(m, ops).0)
    ensures Agree(RunMemory(m, ops).0, RunSql(db, ops).0)
    decreases |ops|
  {
    if ops == [] {
      forall q | IsQuery(q) ensures SqlAnswer(db, q) == MemoryAnswer(m, q) {
        AnswersAgree(m, db, q);
      }
    } else {
      StepAgrees(m, db, ops[0]);
      BackendsAgree(MemoryStep(m, ops[0]).0, SqlStep(db, ops[0]).0, ops[1..]);
    }
  }

  lemma EmptySimulates(db: Database)
    requires forall t: Table :: Lookup(db, t) == []
    ensures Sim(EMPTY_MEMORY, db) && KeysUnique(EMPTY_MEMORY)
  {
    forall s ensures LedgerSim(EMPTY_MEMORY.books, Lookup(db, TLedger), s) {
      assert SelectRows([], ScopeCond(s)) == [];
    }
  }

  /** From empty tables, freshly created or reset: the database runs as new in-memory stores do. */
  lemma FreshBackendsAgree(db: Database, ops: seq<Op>)
    requires forall t: Table :: Lookup(db, t) == []
    requires Admissible(EMPTY_MEMORY, ops)
    ensures forall op :: op in ops ==> IsOp(op)
    ensures RunSql(db, ops).1 == RunMemory(EMPTY_MEMORY, ops).1
    ensures Agree(RunMemory(EMPTY_MEMORY, ops).0, RunSql(db, ops).0)
  {
    AdmissibleOps(EMPTY_MEMORY, ops);
    EmptySimulates(db);
    BackendsAgree(EMPTY_MEMORY, db, ops);
  }
}
