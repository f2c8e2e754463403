/** Whole legacy databases: the migration goes through, what it leaves is simulated by a memory of
    upgraded objects, and ownership lands where the world models put it. */
module Upgrade {
  import opened Domain
  import opened Codec
  import opened Tables
  import opened Containers
  import opened Ledger
  import opened Sql
  import opened Ports
  import opened Refinement
  import opened Backends
  import opened Patching
  import opened Migration
  import opened Fixpoint
  import opened Migrated

  /** What a pre-isolation database spells out: per table the attributes of each row's object, and
      the ledger rows with their nested events. */
  datatype Legacy = Legacy(objs: map<Table, seq<Attrs>>, ledger: seq<LegacyEntry>)

  function RecoveredFrom(d: Db): Recovered { Recover(d.columns, d.tables) }

  ghost predicate LegacyDb(d: Db, l: Legacy) {
    && d.tables.Keys <= d.columns.Keys
    && (forall t :: t in d.columns && Rebuilt(t) ==> CSpace !in d.columns[t])
    && (forall t: Table :: !t.TLedger? ==> LegacyTable(t, RecoveredFrom(d), Lookup(d.tables, t), Lookup(l.objs, t)))
    && LegacyLedger(Lookup(d.tables, TLedger), l.ledger)
    && (forall s :: InOrder(s, Lookup(BooksOf(Entries(l.ledger)), s)))
  }

  /** The in-memory state holding the upgraded objects, in legacy order. */
  ghost function UpgradedMemory(d: Db, l: Legacy): Memory
    requires LegacyDb(d, l)
  {
    Memory(UpgradedRecords(RecoveredFrom(d), d.tables, l.objs), BooksOf(Entries(l.ledger)))
  }

  ghost function UpgradedRecords(rec: Recovered, tables: Database, objs: map<Table, seq<Attrs>>): map<Table, seq<Value>>
    requires forall t: Table :: !t.TLedger? ==> LegacyTable(t, rec, Lookup(tables, t), Lookup(objs, t))
  {
    map t | t in objs && !t.TLedger? :: ObjectsOf(t, rec, Lookup(tables, t), Lookup(objs, t))
  }

  ghost function ObjectsOf(t: Table, rec: Recovered, rows: seq<Row>, fs: seq<Attrs>): seq<Value>
    requires LegacyTable(t, rec, rows, fs)
  {
    Objects(t, rec, fs)
  }

  lemma RecordsAt(d: Db, l: Legacy, t: Table)
    requires LegacyDb(d, l) && !t.TLedger?
    ensures LegacyTable(t, RecoveredFrom(d), Lookup(d.tables, t), Lookup(l.objs, t))
    ensures Lookup(UpgradedMemory(d, l).recs, t) ==
            ObjectsOf(t, RecoveredFrom(d), Lookup(d.tables, t), Lookup(l.objs, t))
  {
    if t !in l.objs {
      assert ObjectsOf(t, RecoveredFrom(d), Lookup(d.tables, t), Lookup(l.objs, t)) == [];
    }
  }

  lemma BlobReadable(c: Class, f: Attrs)
    ensures FieldsOf(Encode(Obj(c, f))).Some?
  {
  }

  lemma ModelsAreReadable(rec: Recovered, rows: seq<Row>, fs: seq<Attrs>)
    requires LegacyTable(TWorldModels, rec, rows, fs)
    ensures Readable(rows)
  {
    forall i | 0 <= i < |rows| ensures FieldsOf(rows[i].json).Some? {
      assert LegacyRow(TWorldModels, rec, rows[i], fs[i]);
      BlobReadable(ClassOf(TWorldModels), fs[i]);
    }
  }

  lemma StepGoesThrough(d: Db, l: Legacy, t: Table)
    requires LegacyDb(d, l) && t in d.columns
    ensures Steps(d, t).Some?
  {
    if t.TLedger? {
      var s := Scope("", "");
      assert InOrder(s, Lookup(BooksOf(Entries(l.ledger)), s));
      LedgerMigrated(d.columns[t], RecoveredFrom(d), Lookup(d.tables, t), l.ledger, s);
    } else {
      TableMigrated(t, d.columns[t], RecoveredFrom(d), Lookup(d.tables, t), Lookup(l.objs, t));
    }
  }

  /** A legacy database never makes the migration raise. */
  lemma UpgradeGoesThrough(d: Db, l: Legacy)
    requires LegacyDb(d, l)
    ensures MigrateV0(d).Some?
  {
    forall t | t in d.columns ensures Steps(d, t).Some? {
      StepGoesThrough(d, l, t);
    }
    if TWorldModels in d.columns {
      ModelsAreReadable(RecoveredFrom(d), Lookup(d.tables, TWorldModels), Lookup(l.objs, TWorldModels));
    }
  }

  lemma UpgradedTable(d: Db, l: Legacy, t: Table)
    requires LegacyDb(d, l) && MigrateV0(d).Some? && !t.TLedger?
    ensures TableSim(UpgradedMemory(d, l), MigrateV0(d).value.tables, t)
  {
    RecordsAt(d, l, t);
    AfterAt(d, t);
    if t in d.columns {
      TableMigrated(t, d.columns[t], RecoveredFrom(d), Lookup(d.tables, t), Lookup(l.objs, t));
    }
  }

  lemma UpgradedLedger(d: Db, l: Legacy, s: Scope)
    requires LegacyDb(d, l) && MigrateV0(d).Some?
    ensures LedgerSim(UpgradedMemory(d, l).books, Lookup(MigrateV0(d).value.tables, TLedger), s)
  {
    AfterAt(d, TLedger);
    assert InOrder(s, Lookup(BooksOf(Entries(l.ledger)), s));
    if TLedger in d.columns {
      LedgerMigrated(d.columns[TLedger], RecoveredFrom(d), Lookup(d.tables, TLedger), l.ledger, s);
    }
  }

  /** The migrated tables are simulated by the memory of upgraded objects. */
  lemma UpgradeSimulates(d: Db, l: Legacy)
    requires LegacyDb(d, l)
    ensures MigrateV0(d).Some? && Sim(UpgradedMemory(d, l), MigrateV0(d).value.tables)
  {
    UpgradeGoesThrough(d, l);
    forall t: Table | !t.TLedger? ensures TableSim(UpgradedMemory(d, l), MigrateV0(d).value.tables, t) {
      UpgradedTable(d, l, t);
    }
    forall s ensures LedgerSim(UpgradedMemory(d, l).books, Lookup(MigrateV0(d).value.tables, TLedger), s) {
      UpgradedLedger(d, l, s);
    }
  }

  /** Migration, codec and refinement together: after the migration, every admissible run of the
      SQLite backend is the run of an in-memory backend that holds the upgraded legacy objects. */
  lemma UpgradedBackendsAgree(d: Db, l: Legacy, ops: seq<Op>)
    requires LegacyDb(d, l) && KeysUnique(UpgradedMemory(d, l)) && Admissible(UpgradedMemory(d, l), ops)
    ensures MigrateV0(d).Some? && forall op :: op in ops ==> IsOp(op)
    ensures RunSql(MigrateV0(d).value.tables, ops).1 == RunMemory(UpgradedMemory(d, l), ops).1
    ensures Agree(RunMemory(UpgradedMemory(d, l), ops).0, RunSql(MigrateV0(d).value.tables, ops).0)
  {
    UpgradeSimulates(d, l);
    AdmissibleOps(UpgradedMemory(d, l), ops);
    BackendsAgree(UpgradedMemory(d, l), MigrateV0(d).value.tables, ops);
  }

  // ----- ownership -----

  /** The world models the scan reads, and the evidence rows the fallback query reads; a missing table has
      none. */
  function ModelsOf(d: Db): seq<Row> { if TWorldModels in d.columns then Lookup(d.tables, TWorldModels) else [] }

  function EvidenceOf(d: Db): seq<Row> {
    if TEvidence in d.columns && CSubject in d.columns[TEvidence] then Lookup(d.tables, TEvidence) else []
  }

  /** The subject of the first world model that names the hypothesis or prediction. */
  function NamedBy(d: Db, t: Table, f: Attrs): Option<string> {
    var id := Arg(f, if t.THypotheses? then HypothesisId else Id);
    if id.Str? then FirstToName(ModelsOf(d), if t.THypotheses? then ActiveHypothesisIds else ActivePredictionIds, id.s)
    else None
  }

  /** The recovery rule on its own terms: the subject of the first world model naming the id; failing
      that, or when that subject is the empty string, the only evidence subject; failing that, the
      sentinel. */
  function RightfulOwner(first: Option<string>, sole: Option<string>): string {
    if first.Some? && first.value != "" then first.value
    else if sole.Some? && sole.value != "" then sole.value
    else UNKNOWN_SUBJECT
  }

  lemma SoleSubjectIs(rows: seq<Row>, s: string)
    ensures SoleSubject(rows) == Some(s) <==> Subjects(rows) == {Str(s)}
  {
    if Subjects(rows) == {Str(s)} {
      assert Str(s) in Subjects(rows);
    }
  }

  lemma NoSubjects()
    ensures SoleSubject([]) == None
  {
  }

  /** Whichever tables there are: ownership is recovered by that rule. */
  lemma OwnerIsRightful(d: Db, t: Table, f: Attrs)
    requires OwnerRecovered(t)
    ensures Owner(t, RecoveredFrom(d), f) == RightfulOwner(NamedBy(d, t, f), SoleSubject(EvidenceOf(d)))
  {
    NoSubjects();
    if t.THypotheses? && Arg(f, HypothesisId).Str? {
      OwnersAreFirst(ModelsOf(d), ActiveHypothesisIds, Arg(f, HypothesisId).s);
    } else if t.TPredictions? && Arg(f, Id).Str? {
      OwnersAreFirst(ModelsOf(d), ActivePredictionIds, Arg(f, Id).s);
    }
  }

  /** The rule as it is documented: the fallback only serves an id that no model names, and an empty
      subject is a subject like any other. */
  function DocumentedOwner(first: Option<string>, sole: Option<string>): string {
    if first.Some? then first.value else if sole.Some? then sole.value else UNKNOWN_SUBJECT
  }

  /** The subject the documented rule hands on is not the empty string. */
  predicate NamesSubject(first: Option<string>, sole: Option<string>) {
    first != Some("") && (first.Some? || sole != Some(""))
  }

  /** The migration follows the documented rule exactly when the subject it would have to hand on is not
      the empty string. */
  lemma OwnerIsDocumented(d: Db, t: Table, f: Attrs)
    requires OwnerRecovered(t)
    ensures var first, sole := NamedBy(d, t, f), SoleSubject(EvidenceOf(d));
            Owner(t, RecoveredFrom(d), f) == DocumentedOwner(first, sole) <==> NamesSubject(first, sole)
  {
    OwnerIsRightful(d, t, f);
    assert UNKNOWN_SUBJECT != "";
  }

  /** The objects of one owner, in order. */
  function OwnedOf(vs: seq<Value>, owners: seq<string>, subject: string): seq<Value>
    requires |vs| == |owners|
  {
    if vs == [] then [] else
    var n := |vs| - 1;
    OwnedOf(vs[..n], owners[..n], subject) + if owners[n] == subject then [vs[n]] else []
  }

  /** The upgraded objects of a table whose recovered owner is the subject of the scope. */
  ghost function Owned(d: Db, l: Legacy, t: Table, s: Scope): seq<Value>
    requires LegacyDb(d, l) && !t.TLedger?
  {
    if s.space == DEFAULT_SPACE
    then OwnedOf(ObjectsOf(t, RecoveredFrom(d), Lookup(d.tables, t), Lookup(l.objs, t)),
                 OwnersOf(t, RecoveredFrom(d), Lookup(l.objs, t)), s.subject)
    else []
  }

  function OwnersOf(t: Table, rec: Recovered, fs: seq<Attrs>): seq<string> {
    seq(|fs|, i requires 0 <= i < |fs| => Owner(t, rec, fs[i]))
  }

  lemma MatchesScope(v: Value, s: Scope)
    ensures Matches(v, ScopeCond(s)) <==> OwnedBy(v, s)
  {
    assert forall c :: c in ScopeCond(s) <==> c == CSpace || c == CSubject;
    assert Get(v, FieldOf(CSpace)) == Get(v, SpaceId) && Get(v, FieldOf(CSubject)) == Get(v, SubjectId);
  }

  lemma ObjectOwner(t: Table, rec: Recovered, f: Attrs)
    requires OwnerRecovered(t) && SpaceId !in f && SubjectId !in f
    requires Upgradable(ClassOf(t), Completed(t, rec, f))
    ensures OwnedBy(Object(t, rec, f), Scope(DEFAULT_SPACE, Owner(t, rec, f)))
  {
    CompletedAt(t, rec, f, SpaceId);
    CompletedAt(t, rec, f, SubjectId);
    MissingAt(t, Owner(t, rec, f));
  }

  lemma OneOwner(v: Value, a: Scope, b: Scope)
    requires OwnedBy(v, a)
    ensures OwnedBy(v, b) <==> a == b
  {
  }

  /** Objects whose scopes are known are selected by comparing scopes. */
  lemma {:induction false} SelectOwned(vs: seq<Value>, owners: seq<string>, s: Scope)
    requires |vs| == |owners| && forall i :: 0 <= i < |vs| ==> OwnedBy(vs[i], Scope(DEFAULT_SPACE, owners[i]))
    ensures Select(vs, ScopeCond(s)) == if s.space == DEFAULT_SPACE then OwnedOf(vs, owners, s.subject) else []
    decreases |vs|
  {
    if vs != [] {
      var n := |vs| - 1;
      SelectOwned(vs[..n], owners[..n], s);
      MatchesScope(vs[n], s);
      OneOwner(vs[n], Scope(DEFAULT_SPACE, owners[n]), s);
    }
  }

  lemma ObjectsOwned(t: Table, rec: Recovered, rows: seq<Row>, fs: seq<Attrs>)
    requires OwnerRecovered(t) && LegacyTable(t, rec, rows, fs)
    ensures |ObjectsOf(t, rec, rows, fs)| == |fs|
    ensures forall i :: 0 <= i < |fs| ==>
              OwnedBy(ObjectsOf(t, rec, rows, fs)[i], Scope(DEFAULT_SPACE, OwnersOf(t, rec, fs)[i]))
  {
    forall i | 0 <= i < |fs|
      ensures OwnedBy(ObjectsOf(t, rec, rows, fs)[i], Scope(DEFAULT_SPACE, OwnersOf(t, rec, fs)[i]))
    {
      assert LegacyRow(t, rec, rows[i], fs[i]);
      ObjectOwner(t, rec, fs[i]);
    }
  }

  lemma SelectedIsOwned(d: Db, l: Legacy, t: Table, s: Scope)
    requires LegacyDb(d, l) && OwnerRecovered(t)
    ensures Select(Lookup(UpgradedMemory(d, l).recs, t), ScopeCond(s)) == Owned(d, l, t, s)
  {
    RecordsAt(d, l, t);
    var rec, rows, fs := RecoveredFrom(d), Lookup(d.tables, t), Lookup(l.objs, t);
    ObjectsOwned(t, rec, rows, fs);
    SelectOwned(ObjectsOf(t, rec, rows, fs), OwnersOf(t, rec, fs), s);
  }

  /** `list_for_subject` on the migrated predictions is exactly the legacy predictions whose recovered
      owner is the subject, in legacy order, and nothing at all in any other space. */
  lemma PredictionsListed(d: Db, l: Legacy, s: Scope)
    requires LegacyDb(d, l)
    ensures MigrateV0(d).Some?
    ensures SqlAnswer(MigrateV0(d).value.tables, ListAll(TPredictions, ScopeCond(s))) ==
            Many(Owned(d, l, TPredictions, s))
  {
    UpgradeGoesThrough(d, l);
    UpgradedTable(d, l, TPredictions);
    SelectedIsOwned(d, l, TPredictions, s);
    ListingsAgree(UpgradedMemory(d, l), MigrateV0(d).value.tables, TPredictions, ScopeCond(s));
  }

  /** What the i-th legacy prediction becomes. */
  ghost function UpgradedPrediction(d: Db, l: Legacy, i: nat): Value
    requires LegacyDb(d, l) && i < |Lookup(l.objs, TPredictions)|
  {
    ObjectsOf(TPredictions, RecoveredFrom(d), Lookup(d.tables, TPredictions), Lookup(l.objs, TPredictions))[i]
  }

  /** Who owns the i-th legacy prediction by the documented rule. */
  function DocumentedFor(d: Db, l: Legacy, i: nat): string
    requires i < |Lookup(l.objs, TPredictions)|
  {
    DocumentedOwner(NamedBy(d, TPredictions, Lookup(l.objs, TPredictions)[i]), SoleSubject(EvidenceOf(d)))
  }

  /** The predictions the migrated database lists for a scope. */
  ghost function ListedFor(d: Db, l: Legacy, s: Scope): seq<Value>
    requires LegacyDb(d, l)
  {
    UpgradeGoesThrough(d, l);
    var a := SqlAnswer(MigrateV0(d).value.tables, ListAll(TPredictions, ScopeCond(s)));
    if a.Many? then a.s else []
  }

  lemma OwnedIsSelected(vs: seq<Value>, owners: seq<string>, s: Scope, i: nat)
    requires |vs| == |owners| && forall k :: 0 <= k < |vs| ==> OwnedBy(vs[k], Scope(DEFAULT_SPACE, owners[k]))
    requires i < |vs|
    ensures vs[i] in Select(vs, ScopeCond(s)) <==> s == Scope(DEFAULT_SPACE, owners[i])
  {
    SelectedIn(vs, ScopeCond(s), vs[i]);
    MatchesScope(vs[i], s);
    OneOwner(vs[i], Scope(DEFAULT_SPACE, owners[i]), s);
  }

  /** A legacy prediction is listed in the scope of its recovered owner and in no other. */
  lemma PredictionGoesTo(d: Db, l: Legacy, i: nat, s: Scope)
    requires LegacyDb(d, l) && i < |Lookup(l.objs, TPredictions)|
    ensures UpgradedPrediction(d, l, i) in ListedFor(d, l, s) <==>
            s == Scope(DEFAULT_SPACE, Owner(TPredictions, RecoveredFrom(d), Lookup(l.objs, TPredictions)[i]))
  {
    var rec, rows, fs := RecoveredFrom(d), Lookup(d.tables, TPredictions), Lookup(l.objs, TPredictions);
    RecordsAt(d, l, TPredictions);
    ObjectsOwned(TPredictions, rec, rows, fs);
    OwnedIsSelected(ObjectsOf(TPredictions, rec, rows, fs), OwnersOf(TPredictions, rec, fs), s, i);
    SelectedIsOwned(d, l, TPredictions, s);
    PredictionsListed(d, l, s);
  }

  /** After the migration a prediction is listed where the documented rule puts it exactly when that rule
      does not hand on the empty subject. */
  lemma ListedAsDocumented(d: Db, l: Legacy, i: nat)
    requires LegacyDb(d, l) && i < |Lookup(l.objs, TPredictions)|
    ensures UpgradedPrediction(d, l, i) in ListedFor(d, l, Scope(DEFAULT_SPACE, DocumentedFor(d, l, i))) <==>
            NamesSubject(NamedBy(d, TPredictions, Lookup(l.objs, TPredictions)[i]), SoleSubject(EvidenceOf(d)))
  {
    PredictionGoesTo(d, l, i, Scope(DEFAULT_SPACE, DocumentedFor(d, l, i)));
    OwnerIsDocumented(d, TPredictions, Lookup(l.objs, TPredictions)[i]);
  }

  /** Where it is not: a prediction the empty subject's model names is listed under the sole subject of the
      evidence, and not under its own. */
  lemma MisattributedPrediction(d: Db, l: Legacy, i: nat, other: string)
    requires LegacyDb(d, l) && i < |Lookup(l.objs, TPredictions)| && other != ""
    requires NamedBy(d, TPredictions, Lookup(l.objs, TPredictions)[i]) == Some("")
    requires SoleSubject(EvidenceOf(d)) == Some(other)
    ensures DocumentedFor(d, l, i) == ""
    ensures UpgradedPrediction(d, l, i) in ListedFor(d, l, Scope(DEFAULT_SPACE, other))
    ensures UpgradedPrediction(d, l, i) !in ListedFor(d, l, Scope(DEFAULT_SPACE, ""))
  {
    OwnerIsRightful(d, TPredictions, Lookup(l.objs, TPredictions)[i]);
    PredictionGoesTo(d, l, i, Scope(DEFAULT_SPACE, other));
    PredictionGoesTo(d, l, i, Scope(DEFAULT_SPACE, ""));
  }

  lemma LatestOfFound(m: Memory, db: Database, s: Scope, found: seq<Value>)
    requires TableSim(m, db, THypotheses) && Select(Lookup(m.recs, THypotheses), ScopeCond(s)) == found
    ensures SqlAnswer(db, ListLatest(THypotheses, s, CHypothesisId)) == Many(LatestPer(found, HypothesisId))
  {
    LatestListingsAgree(m, db, THypotheses, s, CHypothesisId);
  }

  /** The same for hypotheses, which are listed as the latest record per lineage. */
  lemma HypothesesListed(d: Db, l: Legacy, s: Scope)
    requires LegacyDb(d, l)
    ensures MigrateV0(d).Some?
    ensures SqlAnswer(MigrateV0(d).value.tables, ListLatest(THypotheses, s, CHypothesisId)) ==
            Many(LatestPer(Owned(d, l, THypotheses, s), HypothesisId))
  {
    UpgradeGoesThrough(d, l);
    UpgradedTable(d, l, THypotheses);
    SelectedIsOwned(d, l, THypotheses, s);
    LatestOfFound(UpgradedMemory(d, l), MigrateV0(d).value.tables, s, Owned(d, l, THypotheses, s));
  }
}
