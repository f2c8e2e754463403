/** The store of modelling contexts: one per subject, the last one put. */
module Contexts {
  import opened Domain
  import opened Codec
  import opened Declared
  import opened Containers
  import opened Sql
  import opened Ports

  datatype Entry = Entry(subject: string, context: Value)

  /** The context put last for the subject. */
  function LastFor(log: seq<Entry>, subject: string): Option<Value> {
    if log == [] then None
    else if log[|log| - 1].subject == subject then Some(log[|log| - 1].context)
    else LastFor(log[..|log| - 1], subject)
  }

  lemma LastForAppend(log: seq<Entry>, e: Entry, subject: string)
    ensures LastFor(log + [e], subject) == if e.subject == subject then Some(e.context) else LastFor(log, subject)
  {
    assert (log + [e])[..|log|] == log;
  }

  /** `LastFor` on its own terms: nothing exactly when the subject was never put, and otherwise the context
      of the entry no later one of that subject follows. */
  lemma {:induction false} LastForIs(log: seq<Entry>, subject: string)
    ensures LastFor(log, subject).None? <==> forall i :: 0 <= i < |log| ==> log[i].subject != subject
    ensures forall i :: 0 <= i < |log| && log[i].subject == subject
              && (forall j :: i < j < |log| ==> log[j].subject != subject)
              ==> LastFor(log, subject) == Some(log[i].context)
  {
    if log != [] {
      LastForIs(log[..|log| - 1], subject);
      assert forall i :: 0 <= i < |log| - 1 ==> log[..|log| - 1][i] == log[i];
    }
  }

  type BySubject = map<string, Value>

  /** The dict is what these calls of `put` leave. */
  ghost predicate Remembers(m: BySubject, log: seq<Entry>) {
    forall k :: LastFor(log, k) == if k in m then Some(m[k]) else None
  }

  /** The rows are what these calls of `put` leave: one blob per subject. */
  ghost predicate Tabulates(rows: map<string, Json>, log: seq<Entry>) {
    forall k :: if LastFor(log, k).Some? then k in rows && rows[k] == Dump(LastFor(log, k).value) else k !in rows
  }

  datatype ContextToken = ContextToken(bySubject: Cell<BySubject>)

  class InMemorySystemModellingContextStore {
    var bySubject: Cell<BySubject>

    constructor ()
      ensures fresh(bySubject) && Remembers(bySubject.v, [])
    {
      bySubject := new Cell<BySubject>(map[]);
    }

    method Put(subject: string, context: Value, ghost log: seq<Entry>)
      requires Remembers(bySubject.v, log)
      modifies bySubject
      ensures Remembers(bySubject.v, log + [Entry(subject, context)])
    {
      forall k
        ensures LastFor(log + [Entry(subject, context)], k) == if k == subject then Some(context) else LastFor(log, k)
      {
        LastForAppend(log, Entry(subject, context), k);
      }
      bySubject.v := bySubject.v[subject := context];
    }

    method Get(subject: string, ghost log: seq<Entry>) returns (r: Option<Value>)
      requires Remembers(bySubject.v, log)
      ensures r == LastFor(log, subject)
    {
      r := if subject in bySubject.v then Some(bySubject.v[subject]) else None;
    }

    method Snapshot() returns (token: ContextToken)
      ensures fresh(token.bySubject) && token.bySubject.v == bySubject.v
    {
      var copy := new Cell<BySubject>(bySubject.v);
      token := ContextToken(copy);
    }

    method Restore(token: ContextToken)
      modifies this
      ensures bySubject.v == token.bySubject.v && fresh(bySubject)
    {
      bySubject := new Cell<BySubject>(token.bySubject.v);
    }
  }

  /** The table `modelling_context`, keyed by the subject. */
  class SqliteSystemModellingContextStore {
    var rows: map<string, Json>

    constructor ()
      ensures Tabulates(rows, [])
    {
      rows := map[];
    }

    /** INSERT, or ON CONFLICT (subject) DO UPDATE SET json. */
    method Put(subject: string, context: Value, ghost log: seq<Entry>)
      requires Tabulates(rows, log)
      modifies this
      ensures Tabulates(rows, log + [Entry(subject, context)])
    {
      forall k
        ensures LastFor(log + [Entry(subject, context)], k) == if k == subject then Some(context) else LastFor(log, k)
      {
        LastForAppend(log, Entry(subject, context), k);
      }
      rows := rows[subject := Dump(context)];
    }

    /** What was put last comes back, if it was made of registered classes; otherwise the read raises. */
    method Get(subject: string, ghost log: seq<Entry>) returns (a: Answer)
      requires Tabulates(rows, log) && forall e :: e in log ==> Built(DOMAIN, e.context)
      ensures a == ReadBack(log, subject)
    {
      LastForIn(log, subject);
      if subject !in rows {
        return One(None);
      }
      LoadDump(LastFor(log, subject).value);
      var v := Load(rows[subject]);
      a := if v.Some? then One(v) else Raises;
    }
  }

  /** What the database answers after these calls. */
  ghost function ReadBack(log: seq<Entry>, subject: string): Answer {
    var last := LastFor(log, subject);
    if last.None? then One(None) else if Registered(DOMAIN, last.value) then One(last) else Raises
  }

  lemma {:induction false} LastForIn(log: seq<Entry>, subject: string)
    ensures LastFor(log, subject).Some? ==> Entry(subject, LastFor(log, subject).value) in log
  {
    if log != [] {
      LastForIn(log[..|log| - 1], subject);
    }
  }

  /** The same calls to both stores. */
  method PutEach(memory: InMemorySystemModellingContextStore, sqlite: SqliteSystemModellingContextStore,
                 log: seq<Entry>)
    requires Remembers(memory.bySubject.v, []) && Tabulates(sqlite.rows, [])
    modifies memory.bySubject, sqlite
    ensures Remembers(memory.bySubject.v, log) && Tabulates(sqlite.rows, log)
  {
    for i := 0 to |log|
      invariant memory.bySubject == old(memory.bySubject)
      invariant Remembers(memory.bySubject.v, log[..i]) && Tabulates(sqlite.rows, log[..i])
    {
      memory.Put(log[i].subject, log[i].context, log[..i]);
      sqlite.Put(log[i].subject, log[i].context, log[..i]);
      assert log[..i] + [Entry(log[i].subject, log[i].context)] == log[..i + 1];
    }
    assert log[..|log|] == log;
  }

  /** After the same calls the two answer alike for a subject exactly when its last context, if it has one,
      is made of registered classes. */
  method SameContext(memory: InMemorySystemModellingContextStore, sqlite: SqliteSystemModellingContextStore,
                     log: seq<Entry>, subject: string) returns (same: bool)
    requires Remembers(memory.bySubject.v, []) && Tabulates(sqlite.rows, [])
    requires forall e :: e in log ==> Built(DOMAIN, e.context)
    modifies memory.bySubject, sqlite
    ensures same <==> LastFor(log, subject).None? || Registered(DOMAIN, LastFor(log, subject).value)
  {
    PutEach(memory, sqlite, log);
    var m := memory.Get(subject, log);
    var s := sqlite.Get(subject, log);
    same := s == One(m);
  }
}
