/** Who owns a legacy hypothesis or prediction, read off the attributes of the legacy objects. */
module Ownership {
  import opened Domain
  import opened Codec
  import opened Tables
  import opened Containers
  import opened Sql
  import opened Refinement
  import opened Calls
  import opened Patching
  import opened Migration
  import opened Migrated
  import opened Upgrade

  // ----- the objects -----

  /** The world model, as an object, has a subject and lists the id. */
  predicate Lists(model: Attrs, which: Field, id: string) {
    && SubjectId in model && model[SubjectId].Str?
    && which in model && model[which].Tuple? && Str(id) in model[which].items
  }

  lemma EncodesString(v: Value, s: string)
    ensures Encode(v) == JStr(s) <==> v == Str(s)
    ensures Encode(v).JStr? <==> v.Str?
  {
  }

  lemma EncodesTuple(v: Value)
    ensures IsTuple(Encode(v)) <==> v.Tuple?
    ensures v.Tuple? ==> Encode(v).m[KTuple].items == EncodeAll(v.items)
  {
  }

  lemma EncodedItems(items: seq<Value>, id: string)
    ensures JStr(id) in EncodeAll(items) <==> Str(id) in items
  {
    if JStr(id) in EncodeAll(items) {
      var i :| 0 <= i < |items| && EncodeAll(items)[i] == JStr(id);
      EncodesString(items[i], id);
    }
    if Str(id) in items {
      var i :| 0 <= i < |items| && items[i] == Str(id);
      assert EncodeAll(items)[i] == JStr(id);
    }
  }

  lemma MembersAre(v: Value, id: string)
    ensures id in Members(Encode(v)) <==> v.Tuple? && Str(id) in v.items
  {
    MembersHave(Encode(v), id);
    EncodesTuple(v);
    if v.Tuple? {
      EncodedItems(v.items, id);
    }
  }

  lemma AttributeIs(c: Class, f: Attrs, r: Row, k: Field)
    requires r.json == Encode(Obj(c, f))
    ensures Attribute(r, k) == if k in f then Encode(f[k]) else JNull
  {
    EncodedKey(c, f, KField(k));
  }

  lemma RowLists(c: Class, f: Attrs, r: Row, which: Field, id: string)
    requires r.json == Encode(Obj(c, f))
    ensures id in Members(Attribute(r, which)) <==> which in f && f[which].Tuple? && Str(id) in f[which].items
  {
    AttributeIs(c, f, r, which);
    if which in f {
      MembersAre(f[which], id);
    } else {
      MembersHave(JNull, id);
    }
  }

  lemma RowSubject(c: Class, f: Attrs, r: Row)
    requires r.json == Encode(Obj(c, f))
    ensures Attribute(r, SubjectId).JStr? <==> SubjectId in f && f[SubjectId].Str?
    ensures Attribute(r, SubjectId).JStr? ==> f[SubjectId] == Str(Attribute(r, SubjectId).s)
  {
    AttributeIs(c, f, r, SubjectId);
    if SubjectId in f {
      SubjectEncodes(f[SubjectId]);
    }
  }

  /** A row names an id exactly when its object lists it. */
  lemma RowNames(c: Class, f: Attrs, r: Row, which: Field, id: string)
    requires r.json == Encode(Obj(c, f))
    ensures Names(r, which, id) <==> Lists(f, which, id)
    ensures Names(r, which, id) ==> f[SubjectId] == Str(Attribute(r, SubjectId).s)
  {
    RowSubject(c, f, r);
    RowLists(c, f, r, which, id);
  }

  lemma SubjectEncodes(v: Value)
    ensures Encode(v).JStr? <==> v.Str?
    ensures Encode(v).JStr? ==> v == Str(Encode(v).s)
  {
  }

  /** The subject of the first model that lists the id. */
  ghost predicate IsFirstLister(models: seq<Attrs>, which: Field, id: string, r: Option<string>) {
    if r.None? then forall i :: 0 <= i < |models| ==> !Lists(models[i], which, id)
    else exists i :: 0 <= i < |models| && Lists(models[i], which, id) && models[i][SubjectId] == Str(r.value)
                     && forall j :: 0 <= j < i ==> !Lists(models[j], which, id)
  }

  lemma ListerAppend(models: seq<Attrs>, m: Attrs, which: Field, id: string, r: Option<string>)
    requires IsFirstLister(models, which, id, r)
    requires Lists(m, which, id) ==> m[SubjectId].Str?
    ensures IsFirstLister(models + [m], which, id,
                          if r.Some? then r else if Lists(m, which, id) then Some(m[SubjectId].s) else None)
  {
    var all := models + [m];
    if r.Some? {
      var i :| 0 <= i < |models| && Lists(models[i], which, id) && models[i][SubjectId] == Str(r.value)
               && forall j :: 0 <= j < i ==> !Lists(models[j], which, id);
      assert all[i] == models[i];
    } else if Lists(m, which, id) {
      assert all[|models|] == m;
    }
  }

  /** The rows' blobs encode these objects. */
  ghost predicate BlobsAre(c: Class, rows: seq<Row>, fs: seq<Attrs>) {
    |rows| == |fs| && forall i :: 0 <= i < |fs| ==> rows[i].json == Encode(Obj(c, fs[i]))
  }

  lemma FirstListerNext(c: Class, rows: seq<Row>, models: seq<Attrs>, r: Row, f: Attrs, which: Field, id: string)
    requires r.json == Encode(Obj(c, f)) && IsFirstLister(models, which, id, FirstToName(rows, which, id))
    ensures IsFirstLister(models + [f], which, id, FirstToName(rows + [r], which, id))
  {
    RowNames(c, f, r, which, id);
    ListerAppend(models, f, which, id, FirstToName(rows, which, id));
    assert (rows + [r])[..|rows|] == rows;
  }

  lemma {:induction false} FirstListerIs(c: Class, rows: seq<Row>, models: seq<Attrs>, which: Field, id: string)
    requires BlobsAre(c, rows, models)
    ensures IsFirstLister(models, which, id, FirstToName(rows, which, id))
    decreases |models|
  {
    if models != [] {
      var n := |models| - 1;
      FirstListerIs(c, rows[..n], models[..n], which, id);
      FirstListerNext(c, rows[..n], models[..n], rows[n], models[n], which, id);
      SplitLast(models);
      SplitLast(rows);
    }
  }

  lemma ListerUnique(models: seq<Attrs>, which: Field, id: string, r: Option<string>, q: Option<string>)
    requires IsFirstLister(models, which, id, r) && IsFirstLister(models, which, id, q)
    ensures r == q
  {
  }

  lemma LegacyBlobs(t: Table, rec: Recovered, rows: seq<Row>, fs: seq<Attrs>)
    requires LegacyTable(t, rec, rows, fs)
    ensures BlobsAre(ClassOf(t), rows, fs)
  {
    forall i | 0 <= i < |fs| ensures rows[i].json == Encode(Obj(ClassOf(t), fs[i])) {
      assert LegacyRow(t, rec, rows[i], fs[i]);
    }
  }

  lemma LegacyCells(t: Table, rec: Recovered, rows: seq<Row>, fs: seq<Attrs>, c: Column)
    requires LegacyTable(t, rec, rows, fs) && c in LegacyColumns(t)
    ensures |rows| == |fs| && forall i :: 0 <= i < |fs| ==> CellAt(rows[i], c) == Arg(fs[i], FieldOf(c))
  {
    forall i | 0 <= i < |fs| ensures CellAt(rows[i], c) == Arg(fs[i], FieldOf(c)) {
      assert LegacyRow(t, rec, rows[i], fs[i]);
    }
  }

  lemma AllModels(d: Db)
    requires d.tables.Keys <= d.columns.Keys
    ensures ModelsOf(d) == Lookup(d.tables, TWorldModels)
  {
  }

  lemma TableIsLegacy(d: Db, l: Legacy, t: Table)
    requires LegacyDb(d, l) && !t.TLedger?
    ensures LegacyTable(t, RecoveredFrom(d), Lookup(d.tables, t), Lookup(l.objs, t))
    ensures ModelsOf(d) == Lookup(d.tables, TWorldModels)
  {
    AllModels(d);
  }

  lemma ModelBlobs(rec: Recovered, rows: seq<Row>, models: seq<Attrs>)
    requires LegacyTable(TWorldModels, rec, rows, models)
    ensures BlobsAre(WorldModel, rows, models)
  {
    LegacyBlobs(TWorldModels, rec, rows, models);
  }

  lemma ModelRows(d: Db, l: Legacy)
    requires LegacyDb(d, l)
    ensures BlobsAre(WorldModel, ModelsOf(d), Lookup(l.objs, TWorldModels))
  {
    TableIsLegacy(d, l, TWorldModels);
    ModelBlobs(RecoveredFrom(d), ModelsOf(d), Lookup(l.objs, TWorldModels));
  }

  /** On a legacy database a hypothesis (a prediction) is named by the first world model whose own active
      hypotheses (predictions) list its id. */
  lemma NamedByFirstLister(d: Db, l: Legacy, t: Table, f: Attrs, id: string)
    requires LegacyDb(d, l) && OwnerRecovered(t)
    requires Arg(f, if t.THypotheses? then HypothesisId else Id) == Str(id)
    ensures IsFirstLister(Lookup(l.objs, TWorldModels),
                          if t.THypotheses? then ActiveHypothesisIds else ActivePredictionIds, id, NamedBy(d, t, f))
  {
    ModelRows(d, l);
    FirstListerIs(WorldModel, ModelsOf(d), Lookup(l.objs, TWorldModels),
                  if t.THypotheses? then ActiveHypothesisIds else ActivePredictionIds, id);
  }

  // ----- the only subject -----

  /** All the evidence that has a subject has this one, and some has. */
  ghost predicate IsSoleSubject(evidence: seq<Attrs>, s: string) {
    && (exists i :: 0 <= i < |evidence| && Arg(evidence[i], SubjectId) == Str(s))
    && forall i :: 0 <= i < |evidence| ==> Arg(evidence[i], SubjectId) in {PyNone, Str(s)}
  }

  lemma EvidenceCells(d: Db, l: Legacy)
    requires LegacyDb(d, l) && TEvidence in d.columns && CSubject in d.columns[TEvidence]
    ensures var rows, evidence := EvidenceOf(d), Lookup(l.objs, TEvidence);
            |rows| == |evidence|
            && forall i :: 0 <= i < |evidence| ==> CellAt(rows[i], CSubject) == Arg(evidence[i], SubjectId)
  {
    var rec, rows, evidence := RecoveredFrom(d), EvidenceOf(d), Lookup(l.objs, TEvidence);
    assert CSubject in LegacyColumns(TEvidence) && FieldOf(CSubject) == SubjectId;
    LegacyCells(TEvidence, rec, rows, evidence, CSubject);
  }

  lemma SubjectsAre(rows: seq<Row>, evidence: seq<Attrs>, s: string)
    requires |rows| == |evidence|
    requires forall i :: 0 <= i < |evidence| ==> CellAt(rows[i], CSubject) == Arg(evidence[i], SubjectId)
    ensures Subjects(rows) == {Str(s)} <==> IsSoleSubject(evidence, s)
  {
    if Subjects(rows) == {Str(s)} {
      assert Str(s) in Subjects(rows);
      forall i | 0 <= i < |evidence| ensures Arg(evidence[i], SubjectId) in {PyNone, Str(s)} {
        assert CellAt(rows[i], CSubject) != PyNone ==> CellAt(rows[i], CSubject) in Subjects(rows);
      }
    }
    if IsSoleSubject(evidence, s) {
      var i :| 0 <= i < |evidence| && Arg(evidence[i], SubjectId) == Str(s);
      assert CellAt(rows[i], CSubject) in Subjects(rows);
    }
  }

  /** The fallback is the one subject of the legacy evidence. */
  lemma FallbackIsSole(d: Db, l: Legacy, s: string)
    requires LegacyDb(d, l) && TEvidence in d.columns && CSubject in d.columns[TEvidence]
    ensures SoleSubject(EvidenceOf(d)) == Some(s) <==> IsSoleSubject(Lookup(l.objs, TEvidence), s)
  {
    EvidenceCells(d, l);
    SubjectsAre(EvidenceOf(d), Lookup(l.objs, TEvidence), s);
    SoleSubjectIs(EvidenceOf(d), s);
  }

  // ----- where a prediction ends up -----

  /** The subject a prediction is given, over the legacy objects: the subject of the first model that lists its
      id, unless that is empty; else the only subject of the evidence, unless that is empty; else a
      sentinel. */
  ghost predicate GoesTo(l: Legacy, which: Field, id: string, owner: string) {
    var models, evidence := Lookup(l.objs, TWorldModels), Lookup(l.objs, TEvidence);
    if exists s :: s != "" && IsFirstLister(models, which, id, Some(s)) then
      IsFirstLister(models, which, id, Some(owner))
    else if exists s :: s != "" && IsSoleSubject(evidence, s) then IsSoleSubject(evidence, owner)
    else owner == "subject:unknown-pre-migration"
  }

  lemma RuleIs(models: seq<Attrs>, evidence: seq<Attrs>, which: Field, id: string, first: Option<string>,
               sole: Option<string>, l: Legacy)
    requires models == Lookup(l.objs, TWorldModels) && evidence == Lookup(l.objs, TEvidence)
    requires IsFirstLister(models, which, id, first)
    requires forall s :: sole == Some(s) <==> IsSoleSubject(evidence, s)
    ensures GoesTo(l, which, id, RightfulOwner(first, sole))
  {
    forall s | IsFirstLister(models, which, id, Some(s)) ensures first == Some(s) {
      ListerUnique(models, which, id, first, Some(s));
    }
    if first.Some? && first.value != "" {
      assert IsFirstLister(models, which, id, Some(first.value));
    } else if sole.Some? && sole.value != "" {
      assert IsSoleSubject(evidence, sole.value);
    }
  }

  /** The owner the migration recovers, for hypotheses and predictions alike. */
  lemma OwnerByObjects(d: Db, l: Legacy, t: Table, f: Attrs, id: string)
    requires LegacyDb(d, l) && OwnerRecovered(t)
    requires TEvidence in d.columns && CSubject in d.columns[TEvidence]
    requires Arg(f, if t.THypotheses? then HypothesisId else Id) == Str(id)
    ensures GoesTo(l, if t.THypotheses? then ActiveHypothesisIds else ActivePredictionIds, id,
                   Owner(t, RecoveredFrom(d), f))
  {
    var first, sole := NamedBy(d, t, f), SoleSubject(EvidenceOf(d));
    NamedByFirstLister(d, l, t, f, id);
    forall s ensures sole == Some(s) <==> IsSoleSubject(Lookup(l.objs, TEvidence), s) {
      FallbackIsSole(d, l, s);
    }
    OwnerIsRightful(d, t, f);
    RuleIs(Lookup(l.objs, TWorldModels), Lookup(l.objs, TEvidence),
           if t.THypotheses? then ActiveHypothesisIds else ActivePredictionIds, id, first, sole, l);
  }

  /** After the migration a legacy prediction is listed in the default space, for the subject that rule gives,
      and nowhere else. */
  lemma PredictionByObjects(d: Db, l: Legacy, i: nat, id: string) returns (owner: string)
    requires LegacyDb(d, l) && i < |Lookup(l.objs, TPredictions)|
    requires TEvidence in d.columns && CSubject in d.columns[TEvidence]
    requires Arg(Lookup(l.objs, TPredictions)[i], Id) == Str(id)
    ensures GoesTo(l, ActivePredictionIds, id, owner)
    ensures forall s :: UpgradedPrediction(d, l, i) in ListedFor(d, l, s) <==> s == Scope("space:default", owner)
  {
    var f := Lookup(l.objs, TPredictions)[i];
    owner := Owner(TPredictions, RecoveredFrom(d), f);
    OwnerByObjects(d, l, TPredictions, f, id);
    forall s ensures UpgradedPrediction(d, l, i) in ListedFor(d, l, s) <==> s == Scope("space:default", owner) {
      PredictionGoesTo(d, l, i, s);
    }
  }

  // ----- what a legacy object becomes -----

  /** Attribute by attribute: what the object had it keeps, its space is the default space, a recovered subject is
      the owner, and everything else it is missing is absent, empty or the default space. */
  ghost predicate IsUpgrade(t: Table, f: Attrs, owner: string, v: Value) {
    && v.Obj? && v.cls == ClassOf(t) && v.fields.Keys == RequiredOf(v.cls) + OptionalOf(v.cls)
    && (forall k :: k in f ==> Get(v, k) == f[k])
    && (SpaceId in v.fields ==> Get(v, SpaceId) == Str("space:default"))
    && (OwnerRecovered(t) ==> Get(v, SubjectId) == Str(owner))
    && forall k :: k in v.fields && k !in f && k != SpaceId && k != SubjectId ==>
         Get(v, k) in {PyNone, Str(""), Tuple([])}
  }

  lemma ObjectKeys(t: Table, rec: Recovered, f: Attrs)
    requires Upgradable(ClassOf(t), Completed(t, rec, f))
    ensures Object(t, rec, f).cls == ClassOf(t)
    ensures Object(t, rec, f).fields.Keys == RequiredOf(ClassOf(t)) + OptionalOf(ClassOf(t))
  {
    assert Schema(ClassOf(t)).Keys == RequiredOf(ClassOf(t)) + OptionalOf(ClassOf(t));
  }

  lemma MissingIs(t: Table, owner: string, k: Field)
    requires k in Missing(t, owner)
    ensures k == SpaceId || (k == SubjectId && OwnerRecovered(t)) || Missing(t, owner)[k] == PyNone
    ensures k == SpaceId ==> Missing(t, owner)[k] == Str("space:default")
    ensures k == SubjectId && OwnerRecovered(t) ==> Missing(t, owner)[k] == Str(owner)
  {
  }

  lemma SpaceIsDefault(t: Table, rec: Recovered, f: Attrs)
    requires Upgradable(ClassOf(t), Completed(t, rec, f)) && SpaceId !in f
    ensures SpaceId in Object(t, rec, f).fields ==> Get(Object(t, rec, f), SpaceId) == Str("space:default")
  {
    var owner := Owner(t, rec, f);
    if SpaceId in Object(t, rec, f).fields {
      ObjectAttribute(t, rec, f, SpaceId);
      if SpaceId in Missing(t, owner) {
        MissingIs(t, owner, SpaceId);
      }
    }
  }

  lemma ObjectAttribute(t: Table, rec: Recovered, f: Attrs, k: Field)
    requires Upgradable(ClassOf(t), Completed(t, rec, f)) && k !in f && k in Object(t, rec, f).fields
    ensures Get(Object(t, rec, f), k) ==
            if k in Missing(t, Owner(t, rec, f)) then Missing(t, Owner(t, rec, f))[k] else DefaultOf(k)
  {
    CompletedAt(t, rec, f, k);
    ObjectKeys(t, rec, f);
    UpgradedKeeps(ClassOf(t), Completed(t, rec, f), k);
  }

  lemma OtherAttribute(t: Table, rec: Recovered, f: Attrs, k: Field)
    requires Upgradable(ClassOf(t), Completed(t, rec, f)) && k !in f && k in Object(t, rec, f).fields
    requires k != SpaceId && k != SubjectId
    ensures Get(Object(t, rec, f), k) in {PyNone, Str(""), Tuple([])}
  {
    ObjectAttribute(t, rec, f, k);
    if k in Missing(t, Owner(t, rec, f)) {
      MissingIs(t, Owner(t, rec, f), k);
    }
  }

  /** A migrated object, attribute by attribute. */
  lemma ObjectIsUpgrade(t: Table, rec: Recovered, f: Attrs)
    requires Upgradable(ClassOf(t), Completed(t, rec, f))
    requires SpaceId !in f && (OwnerRecovered(t) ==> SubjectId !in f)
    ensures IsUpgrade(t, f, Owner(t, rec, f), Object(t, rec, f))
  {
    var v := Object(t, rec, f);
    ObjectKeys(t, rec, f);
    forall k | k in f ensures Get(v, k) == f[k] {
      CompletedAt(t, rec, f, k);
    }
    SpaceIsDefault(t, rec, f);
    if OwnerRecovered(t) {
      CompletedAt(t, rec, f, SubjectId);
      MissingAt(t, Owner(t, rec, f));
    }
    forall k | k in v.fields && k !in f && k != SpaceId && k != SubjectId
      ensures Get(v, k) in {PyNone, Str(""), Tuple([])}
    {
      OtherAttribute(t, rec, f, k);
    }
  }

  /** Every object of every migrated table is the upgrade of the legacy object at its place; hypotheses and
      predictions are given the owner the legacy objects say. */
  lemma UpgradedByObjects(d: Db, l: Legacy, t: Table, i: nat) returns (owner: string)
    requires LegacyDb(d, l) && !t.TLedger? && i < |Lookup(l.objs, t)|
    ensures |Lookup(UpgradedMemory(d, l).recs, t)| == |Lookup(l.objs, t)|
    ensures IsUpgrade(t, Lookup(l.objs, t)[i], owner, Lookup(UpgradedMemory(d, l).recs, t)[i])
    ensures owner == Owner(t, RecoveredFrom(d), Lookup(l.objs, t)[i])
  {
    var rec, rows, fs := RecoveredFrom(d), Lookup(d.tables, t), Lookup(l.objs, t);
    RecordsAt(d, l, t);
    assert LegacyRow(t, rec, rows[i], fs[i]);
    owner := Owner(t, rec, fs[i]);
    ObjectIsUpgrade(t, rec, fs[i]);
  }

  /** A ledger entry keeps what it said, and its event is in the default space now. */
  lemma EntryIsUpgrade(e: LegacyEntry)
    requires Upgradable(RevisionLedgerEntry, Entry(e)) && SpaceId !in e.event && RevisionEventField in e.entry
    ensures var v := EntryObject(e);
            && v.cls == RevisionLedgerEntry
            && (forall k :: k in e.entry && k != RevisionEventField ==> Get(v, k) == e.entry[k])
            && (var event := Get(v, RevisionEventField);
                event.Obj? && event.cls == RevisionEvent && Get(event, SpaceId) == Str("space:default")
                && forall k :: k in e.event ==> Get(event, k) == e.event[k])
  {
    forall k | k in e.entry && k != RevisionEventField ensures Get(EntryObject(e), k) == e.entry[k] {
      UpgradedKeeps(RevisionLedgerEntry, Entry(e), k);
    }
    UpgradedKeeps(RevisionLedgerEntry, Entry(e), RevisionEventField);
    EventIsUpgrade(e.event);
  }

  lemma EventIsUpgrade(f: Attrs)
    requires SpaceId !in f
    ensures var event := Obj(RevisionEvent, SPACE + f);
            Get(event, SpaceId) == Str("space:default") && forall k :: k in f ==> Get(event, k) == f[k]
  {
  }

  /** Right after the migration, every query method answers by the attributes of the upgraded objects. */
  lemma MigratedMeans(d: Db, l: Legacy, c: Call)
    requires LegacyDb(d, l) && KeysUnique(UpgradedMemory(d, l))
    ensures MigrateV0(d).Some?
    ensures Means(UpgradedMemory(d, l), c, SqlAnswer(MigrateV0(d).value.tables, QueryOf(c)))
  {
    UpgradeSimulates(d, l);
    SqlMeans(UpgradedMemory(d, l), MigrateV0(d).value.tables, c);
  }
}
