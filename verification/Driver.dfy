/** The in-memory bundle and the SQLite connection, driven through the same calls. */
module Driver {
  import opened Domain
  import opened Tables
  import opened Containers
  import opened Ledger
  import opened InMemory
  import opened Bundle
  import opened Semantic
  import opened Contexts
  import opened Ports
  import opened Sql
  import opened Refinement
  import opened Backends
  import opened Calls
  import opened SqliteStores

  /** The tables behind the dict stores and the list stores of the bundle, in order. */
  const DICT_TABLES: seq<Table> := [TInference, TAnomalies, TProvenance]
  const LIST_TABLES: seq<Table> := [THypotheses, TInquiries, TRecognition, TDependencies]

  ghost function DictStores(store: InMemoryReasoningStore): set<object> {
    set i | 0 <= i < |store.groups.dicts| :: store.groups.dicts[i] as object
  }

  ghost function ListStores(store: InMemoryReasoningStore): set<object> {
    set i | 0 <= i < |store.groups.lists| :: store.groups.lists[i] as object
  }

  ghost function DictCells(store: InMemoryReasoningStore): set<object>
    reads DictStores(store)
  {
    set i | 0 <= i < |store.groups.dicts| :: store.groups.dicts[i].byKey as object
  }

  ghost function ListCells(store: InMemoryReasoningStore): set<object>
    reads ListStores(store)
  {
    set i | 0 <= i < |store.groups.lists| :: store.groups.lists[i].records as object
  }

  ghost function DictObjects(store: InMemoryReasoningStore): set<object>
    reads DictStores(store)
  {
    DictStores(store) + DictCells(store)
  }

  ghost function ListObjects(store: InMemoryReasoningStore): set<object>
    reads ListStores(store)
  {
    ListStores(store) + ListCells(store)
  }

  // ----- what the bundle holds -----

  ghost predicate EvidenceHolds(store: InMemoryReasoningStore, m: Memory)
    reads store.flat.evidence, store.flat.evidence.byId, store.flat.evidence.byRef
  {
    store.flat.evidence.Valid() && Stored(m, TEvidence, store.flat.evidence.Contents())
  }

  ghost predicate PredictionsHold(store: InMemoryReasoningStore, m: Memory)
    reads store.flat.predictions, store.flat.predictions.byId, store.flat.predictions.order
  {
    store.flat.predictions.Valid() && Stored(m, TPredictions, store.flat.predictions.Contents())
  }

  ghost predicate ModelsHold(store: InMemoryReasoningStore, m: Memory)
    reads store.flat.worldModels, store.flat.worldModels.versions, store.flat.worldModels.current
  {
    && store.flat.worldModels.Valid()
    && Stored(m, TWorldModels, store.flat.worldModels.Versions())
    && Stored(m, TCurrentPointer, store.flat.worldModels.Pointers())
  }

  ghost predicate DictsHold(store: InMemoryReasoningStore, m: Memory)
    reads DictObjects(store)
  {
    && |store.groups.dicts| >= |DICT_TABLES|
    && forall i :: 0 <= i < |DICT_TABLES| ==>
         var d := store.groups.dicts[i];
         d.Valid() && d.Serves(DICT_TABLES[i]) && Stored(m, DICT_TABLES[i], d.Contents())
  }

  ghost predicate ListsHold(store: InMemoryReasoningStore, m: Memory)
    reads ListObjects(store)
  {
    && |store.groups.lists| >= |LIST_TABLES|
    && forall i :: 0 <= i < |LIST_TABLES| ==> Stored(m, LIST_TABLES[i], store.groups.lists[i].records.v)
  }

  ghost predicate LedgerHolds(store: InMemoryReasoningStore, m: Memory)
    reads store.nested.ledger, store.nested.ledger.byScope, store.nested.ledger.byScope.Repr
  {
    store.nested.ledger.Valid() && store.nested.ledger.Contents() == m.books
  }

  // ----- the parts of the bundle -----

  /** What a write can fall into. */
  datatype Part = PEvidence | PPredictions | PModels | PDicts | PLists | PLedger

  function PartOf(op: Op): Part {
    match op
    case Log(_) => PLedger
    case Record(t, _) => PartOfTable(t)
  }

  function PartOfTable(t: Table): Part {
    match t
    case TEvidence => PEvidence
    case TPredictions => PPredictions
    case TWorldModels => PModels
    case TCurrentPointer => PModels
    case TInference => PDicts
    case TAnomalies => PDicts
    case TProvenance => PDicts
    case TLedger => PLedger
    case _ => PLists
  }

  ghost predicate PartHolds(store: InMemoryReasoningStore, m: Memory, p: Part)
    reads PartObjects(store, p)
  {
    match p
    case PEvidence => EvidenceHolds(store, m)
    case PPredictions => PredictionsHold(store, m)
    case PModels => ModelsHold(store, m)
    case PDicts => DictsHold(store, m)
    case PLists => ListsHold(store, m)
    case PLedger => LedgerHolds(store, m)
  }

  ghost function PartObjects(store: InMemoryReasoningStore, p: Part): set<object>
    reads match p
          case PEvidence => {store.flat.evidence as object}
          case PPredictions => {store.flat.predictions}
          case PModels => {store.flat.worldModels}
          case PDicts => DictStores(store)
          case PLists => ListStores(store)
          case PLedger => {store.nested.ledger, store.nested.ledger.byScope}
  {
    match p
    case PEvidence => {store.flat.evidence, store.flat.evidence.byId, store.flat.evidence.byRef}
    case PPredictions => {store.flat.predictions, store.flat.predictions.byId, store.flat.predictions.order}
    case PModels => {store.flat.worldModels, store.flat.worldModels.versions, store.flat.worldModels.current}
    case PDicts => DictObjects(store)
    case PLists => ListObjects(store)
    case PLedger => {store.nested.ledger, store.nested.ledger.byScope} + store.nested.ledger.byScope.Repr
  }

  /** The containers a write to the part goes to. */
  ghost function Written(store: InMemoryReasoningStore, p: Part): set<object>
    reads Handles(store), if p.PLedger? then {store.nested.ledger.byScope} else {}
  {
    match p
    case PEvidence => {store.flat.evidence.byId, store.flat.evidence.byRef}
    case PPredictions => {store.flat.predictions.byId, store.flat.predictions.order}
    case PModels => {store.flat.worldModels.versions, store.flat.worldModels.current}
    case PDicts => DictCells(store)
    case PLists => ListCells(store)
    case PLedger => store.nested.ledger.byScope.Repr
  }

  /** The stores themselves. */
  ghost function Handles(store: InMemoryReasoningStore): set<object> {
    {store.flat.evidence as object, store.flat.predictions, store.flat.worldModels, store.nested.ledger}
    + DictStores(store) + ListStores(store)
  }

  /** All but what the ledger has. */
  ghost function OtherObjects(store: InMemoryReasoningStore): set<object>
    reads Handles(store)
  {
    PartObjects(store, PEvidence) + PartObjects(store, PPredictions) + PartObjects(store, PModels)
    + PartObjects(store, PDicts) + PartObjects(store, PLists)
  }

  /** The containers that are not the ledger's, which no write replaces, and all a write can go to. */
  ghost function Cells(store: InMemoryReasoningStore): set<object>
    reads Handles(store)
  {
    Written(store, PEvidence) + Written(store, PPredictions) + Written(store, PModels)
    + Written(store, PDicts) + Written(store, PLists)
  }

  ghost function AllWritten(store: InMemoryReasoningStore): set<object>
    reads Handles(store), store.nested.ledger.byScope
  {
    Cells(store) + Written(store, PLedger)
  }

  lemma WrittenIn(store: InMemoryReasoningStore, p: Part)
    ensures Written(store, p) <= AllWritten(store)
  {
  }

  ghost predicate OthersApart(store: InMemoryReasoningStore)
    reads Handles(store)
  {
    && (forall p: Part, q: Part :: p != q && p != PLedger && q != PLedger ==>
          Written(store, p) !! PartObjects(store, q))
    && (forall p: Part :: p != PLedger ==> Written(store, p) !! Handles(store))
    && DictsApart(store) && ListsApart(store)
  }

  /** No container serves two of the stores. */
  ghost predicate Separate(store: InMemoryReasoningStore)
    reads Handles(store), store.nested.ledger.byScope
  {
    && OthersApart(store) && store.nested.ledger.byScope !in OtherObjects(store)
    && store.nested.ledger.byScope.Repr !! OtherObjects(store) + Handles(store)
  }

  ghost predicate DictsApart(store: InMemoryReasoningStore)
    reads DictStores(store)
  {
    forall i, j :: 0 <= i < j < |store.groups.dicts| ==> store.groups.dicts[i].byKey != store.groups.dicts[j].byKey
  }

  ghost predicate ListsApart(store: InMemoryReasoningStore)
    reads ListStores(store)
  {
    forall i, j :: 0 <= i < j < |store.groups.lists| ==>
      store.groups.lists[i].records != store.groups.lists[j].records
  }

  ghost function AllObjects(store: InMemoryReasoningStore): set<object>
    reads Handles(store), store.nested.ledger.byScope
  {
    PartObjects(store, PEvidence) + PartObjects(store, PPredictions) + PartObjects(store, PModels)
    + PartObjects(store, PDicts) + PartObjects(store, PLists) + PartObjects(store, PLedger)
  }

  /** The bundle is this memory, spread over its stores. */
  ghost predicate Spells(store: InMemoryReasoningStore, m: Memory)
    reads AllObjects(store)
  {
    forall p: Part :: PartHolds(store, m, p)
  }

  ghost function Rest(store: InMemoryReasoningStore, p: Part): set<object>
    reads Handles(store), if p.PLedger? then {} else {store.nested.ledger.byScope}
  {
    (if p.PEvidence? then {} else PartObjects(store, PEvidence))
    + (if p.PPredictions? then {} else PartObjects(store, PPredictions))
    + (if p.PModels? then {} else PartObjects(store, PModels))
    + (if p.PDicts? then {} else PartObjects(store, PDicts))
    + (if p.PLists? then {} else PartObjects(store, PLists))
    + (if p.PLedger? then {} else PartObjects(store, PLedger))
  }

  /** Every part but one spells out its share. */
  ghost predicate RestHolds(store: InMemoryReasoningStore, m: Memory, p: Part)
    reads Handles(store), Rest(store, p)
  {
    forall q: Part :: q != p ==> PartHolds(store, m, q)
  }

  // ----- one write in memory -----

  lemma PartsSpell(store: InMemoryReasoningStore, m: Memory, p: Part)
    ensures Spells(store, m) <==> RestHolds(store, m, p) && PartHolds(store, m, p)
  {
  }

  /** The two memories agree about the part. */
  ghost predicate SamePart(m: Memory, n: Memory, p: Part) {
    && (forall t: Table :: !t.TLedger? && PartOfTable(t) == p ==> Lookup(n.recs, t) == Lookup(m.recs, t))
    && (p.PLedger? ==> n.books == m.books)
  }

  lemma DictsStay(store: InMemoryReasoningStore, m: Memory, n: Memory)
    requires DictsHold(store, m) && SamePart(m, n, PDicts)
    ensures DictsHold(store, n)
  {
    forall i | 0 <= i < |DICT_TABLES| ensures Stored(n, DICT_TABLES[i], store.groups.dicts[i].Contents()) {
      assert Stored(m, DICT_TABLES[i], store.groups.dicts[i].Contents()) && PartOfTable(DICT_TABLES[i]) == PDicts;
    }
  }

  lemma ListsStay(store: InMemoryReasoningStore, m: Memory, n: Memory)
    requires ListsHold(store, m) && SamePart(m, n, PLists)
    ensures ListsHold(store, n)
  {
    forall i | 0 <= i < |LIST_TABLES| ensures Stored(n, LIST_TABLES[i], store.groups.lists[i].records.v) {
      assert Stored(m, LIST_TABLES[i], store.groups.lists[i].records.v) && PartOfTable(LIST_TABLES[i]) == PLists;
    }
  }

  lemma PartStays(store: InMemoryReasoningStore, m: Memory, n: Memory, p: Part)
    requires PartHolds(store, m, p) && SamePart(m, n, p)
    ensures PartHolds(store, n, p)
  {
    match p
    case PDicts => DictsStay(store, m, n);
    case PLists => ListsStay(store, m, n);
    case _ =>
  }

  lemma StepIsLocal(m: Memory, op: Op, q: Part)
    requires IsOp(op) && q != PartOf(op)
    ensures SamePart(m, MemoryStep(m, op).0, q)
  {
    if op.Record? {
      forall t: Table | !t.TLedger? && PartOfTable(t) == q
        ensures Lookup(MemoryStep(m, op).0.recs, t) == Lookup(m.recs, t)
      {
        TakenElsewhere(m, op.t, op.v, t);
      }
    }
  }

  /** A write to one part changes the memory of no other. */
  lemma RestStays(store: InMemoryReasoningStore, m: Memory, op: Op)
    requires IsOp(op) && RestHolds(store, m, PartOf(op))
    ensures RestHolds(store, MemoryStep(m, op).0, PartOf(op))
  {
    forall q: Part | q != PartOf(op) ensures PartHolds(store, MemoryStep(m, op).0, q) {
      StepIsLocal(m, op, q);
      PartStays(store, m, MemoryStep(m, op).0, q);
    }
  }

  method EvidenceStep(store: InMemoryReasoningStore, ghost keep: () ~> bool, v: Value, ghost m: Memory)
      returns (ok: bool)
    requires keep.requires() && keep() && EvidenceHolds(store, m) && Written(store, PEvidence) !! keep.reads()
    modifies Written(store, PEvidence)
    ensures keep.requires() && keep() && EvidenceHolds(store, MemoryStep(m, Record(TEvidence, v)).0)
    ensures ok == MemoryStep(m, Record(TEvidence, v)).1
  {
    ok := store.flat.evidence.Add(v);
  }

  method PredictionStep(store: InMemoryReasoningStore, ghost keep: () ~> bool, v: Value, ghost m: Memory)
    requires keep.requires() && keep() && PredictionsHold(store, m) && Written(store, PPredictions) !! keep.reads()
    modifies Written(store, PPredictions)
    ensures keep.requires() && keep() && PredictionsHold(store, MemoryStep(m, Record(TPredictions, v)).0)
    ensures MemoryStep(m, Record(TPredictions, v)).1
  {
    store.flat.predictions.Add(v);
  }

  method VersionStep(store: InMemoryReasoningStore, ghost keep: () ~> bool, v: Value, ghost m: Memory)
      returns (ok: bool)
    requires keep.requires() && keep() && ModelsHold(store, m) && Written(store, PModels) !! keep.reads()
    modifies Written(store, PModels)
    ensures keep.requires() && keep() && ModelsHold(store, MemoryStep(m, Record(TWorldModels, v)).0)
    ensures ok == MemoryStep(m, Record(TWorldModels, v)).1
  {
    ok := store.flat.worldModels.AppendVersion(v);
  }

  method PointerStep(store: InMemoryReasoningStore, ghost keep: () ~> bool, v: Value, ghost m: Memory)
    requires keep.requires() && keep() && ModelsHold(store, m) && Written(store, PModels) !! keep.reads()
    modifies Written(store, PModels)
    ensures keep.requires() && keep() && ModelsHold(store, MemoryStep(m, Record(TCurrentPointer, v)).0)
    ensures MemoryStep(m, Record(TCurrentPointer, v)).1
  {
    store.flat.worldModels.SetCurrentPointer(v);
  }

  method AddToDict(store: InMemoryReasoningStore, ghost keep: () ~> bool, i: nat, v: Value) returns (ok: bool)
    requires i < |store.groups.dicts| && store.groups.dicts[i].Valid() && DictsApart(store)
    requires keep.requires() && keep() && Written(store, PDicts) !! keep.reads()
    modifies Written(store, PDicts)
    ensures keep.requires() && keep() && store.groups.dicts[i].Valid()
    ensures forall t :: store.groups.dicts[i].Serves(t) ==>
              Takes(t, v, old(store.groups.dicts[i].Contents()), store.groups.dicts[i].Contents(), ok)
    ensures forall j :: 0 <= j < |store.groups.dicts| && j != i ==>
              store.groups.dicts[j].byKey == old(store.groups.dicts[j].byKey)
              && store.groups.dicts[j].byKey.v == old(store.groups.dicts[j].byKey.v)
  {
    ok := store.groups.dicts[i].Add(v);
  }

  lemma DictTablesDiffer(i: nat, j: nat)
    requires i < |DICT_TABLES| && j < |DICT_TABLES| && i != j
    ensures DICT_TABLES[i] != DICT_TABLES[j]
  {
  }

  lemma TakenElsewhere(m: Memory, t: Table, v: Value, u: Table)
    requires !t.TLedger? && t != u
    ensures Lookup(MemoryStep(m, Record(t, v)).0.recs, u) == Lookup(m.recs, u)
  {
  }

  method DictStep(store: InMemoryReasoningStore, ghost keep: () ~> bool, i: nat, v: Value, ghost m: Memory)
      returns (ok: bool)
    requires i < |DICT_TABLES| && keep.requires() && keep() && DictsHold(store, m)
    requires Written(store, PDicts) !! keep.reads() && DictsApart(store)
    modifies Written(store, PDicts)
    ensures keep.requires() && keep() && DictsHold(store, MemoryStep(m, Record(DICT_TABLES[i], v)).0)
    ensures ok == MemoryStep(m, Record(DICT_TABLES[i], v)).1
  {
    ghost var t := DICT_TABLES[i];
    assert store.groups.dicts[i].Serves(t) && Stored(m, t, store.groups.dicts[i].Contents());
    ok := AddToDict(store, keep, i, v);
    forall j | 0 <= j < |DICT_TABLES| && j != i
      ensures Lookup(MemoryStep(m, Record(t, v)).0.recs, DICT_TABLES[j]) == Lookup(m.recs, DICT_TABLES[j])
    {
      DictTablesDiffer(i, j);
      TakenElsewhere(m, t, v, DICT_TABLES[j]);
    }
  }

  method AddToList(store: InMemoryReasoningStore, ghost keep: () ~> bool, i: nat, v: Value)
    requires i < |store.groups.lists| && ListsApart(store)
    requires keep.requires() && keep() && Written(store, PLists) !! keep.reads()
    modifies Written(store, PLists)
    ensures keep.requires() && keep()
    ensures forall t: Table :: MemoryKind(t).Append? ==>
              Takes(t, v, old(store.groups.lists[i].records.v), store.groups.lists[i].records.v, true)
    ensures forall j :: 0 <= j < |store.groups.lists| && j != i ==>
              store.groups.lists[j].records.v == old(store.groups.lists[j].records.v)
  {
    store.groups.lists[i].Add(v);
  }

  lemma ListTablesDiffer(i: nat, j: nat)
    requires i < |LIST_TABLES| && j < |LIST_TABLES| && i != j
    ensures LIST_TABLES[i] != LIST_TABLES[j]
  {
  }

  method ListStep(store: InMemoryReasoningStore, ghost keep: () ~> bool, i: nat, v: Value, ghost m: Memory)
    requires i < |LIST_TABLES| && keep.requires() && keep() && ListsHold(store, m)
    requires Written(store, PLists) !! keep.reads() && ListsApart(store)
    modifies Written(store, PLists)
    ensures keep.requires() && keep() && ListsHold(store, MemoryStep(m, Record(LIST_TABLES[i], v)).0)
    ensures MemoryStep(m, Record(LIST_TABLES[i], v)).1
  {
    ghost var t := LIST_TABLES[i];
    assert Stored(m, t, store.groups.lists[i].records.v);
    AddToList(store, keep, i, v);
    forall j | 0 <= j < |LIST_TABLES| && j != i
      ensures Lookup(MemoryStep(m, Record(t, v)).0.recs, LIST_TABLES[j]) == Lookup(m.recs, LIST_TABLES[j])
    {
      ListTablesDiffer(i, j);
      TakenElsewhere(m, t, v, LIST_TABLES[j]);
    }
  }

  method LedgerStep(store: InMemoryReasoningStore, ghost keep: () ~> bool, ghost away: set<object>, event: Value,
                    ghost m: Memory)
      returns (ok: bool)
    requires HasScope(event) && keep.requires() && keep() && LedgerHolds(store, m)
    requires Written(store, PLedger) !! keep.reads() && Written(store, PLedger) !! away
    modifies Written(store, PLedger)
    ensures keep.requires() && keep() && LedgerHolds(store, MemoryStep(m, Log(event)).0)
    ensures ok == MemoryStep(m, Log(event)).1
    ensures fresh(Written(store, PLedger) - old(Written(store, PLedger))) && Written(store, PLedger) !! away
  {
    var entry := store.nested.ledger.AppendEvent(event);
    ok := entry.Some?;
  }

  lemma WrittenIsOther(store: InMemoryReasoningStore, p: Part)
    requires p != PLedger
    ensures Written(store, p) <= PartObjects(store, p) <= OtherObjects(store)
  {
  }

  lemma WrittenApart(store: InMemoryReasoningStore, p: Part)
    requires Separate(store)
    ensures Written(store, p) !! Rest(store, p) && Written(store, p) !! Handles(store)
  {
    if p.PLedger? {
      assert Rest(store, p) == OtherObjects(store);
    } else {
      WrittenIsOther(store, p);
      forall q: Part | q != p ensures Written(store, p) !! PartObjects(store, q) {
        var ledger := store.nested.ledger;
        assert PartObjects(store, PLedger) == {ledger, ledger.byScope} + ledger.byScope.Repr;
      }
    }
  }

  /** A write to a table of records, as its store takes it. */
  method StoreStep(store: InMemoryReasoningStore, ghost keep: () ~> bool, t: Table, v: Value, ghost m: Memory)
      returns (ok: bool)
    requires !t.TLedger? && keep.requires() && keep() && PartHolds(store, m, PartOfTable(t))
    requires Written(store, PartOfTable(t)) !! keep.reads() && DictsApart(store) && ListsApart(store)
    modifies Written(store, PartOfTable(t))
    ensures keep.requires() && keep() && PartHolds(store, MemoryStep(m, Record(t, v)).0, PartOfTable(t))
    ensures ok == MemoryStep(m, Record(t, v)).1
  {
    ok := true;
    match t
    case TEvidence => ok := EvidenceStep(store, keep, v, m);
    case TPredictions => PredictionStep(store, keep, v, m);
    case TWorldModels => ok := VersionStep(store, keep, v, m);
    case TCurrentPointer => PointerStep(store, keep, v, m);
    case TInference => ok := DictStep(store, keep, 0, v, m);
    case TAnomalies => ok := DictStep(store, keep, 1, v, m);
    case TProvenance => ok := DictStep(store, keep, 2, v, m);
    case THypotheses => ListStep(store, keep, 0, v, m);
    case TInquiries => ListStep(store, keep, 1, v, m);
    case TRecognition => ListStep(store, keep, 2, v, m);
    case TDependencies => ListStep(store, keep, 3, v, m);
  }

  /** What stays while one part is written to. */
  ghost predicate KeptBut(store: InMemoryReasoningStore, m: Memory, p: Part, all: set<object>)
    requires !p.PLedger?
    reads Handles(store), Rest(store, p)
  {
    RestHolds(store, m, p) && Separate(store) && AllWritten(store) == all
  }

  lemma SpellsAfter(store: InMemoryReasoningStore, m: Memory, op: Op, all: set<object>)
    requires IsOp(op) && op.Record? && KeptBut(store, m, PartOf(op), all)
    requires PartHolds(store, MemoryStep(m, op).0, PartOf(op))
    ensures Spells(store, MemoryStep(m, op).0) && Separate(store) && AllWritten(store) == all
  {
    RestStays(store, m, op);
    PartsSpell(store, MemoryStep(m, op).0, PartOf(op));
  }

  method RecordBeside(store: InMemoryReasoningStore, ghost all: set<object>, t: Table, v: Value, ghost m: Memory)
      returns (ok: bool)
    requires !t.TLedger? && PartHolds(store, m, PartOfTable(t)) && KeptBut(store, m, PartOfTable(t), all)
    requires Written(store, PartOfTable(t)) !! Rest(store, PartOfTable(t)) + Handles(store)
    requires DictsApart(store) && ListsApart(store)
    modifies Written(store, PartOfTable(t))
    ensures PartHolds(store, MemoryStep(m, Record(t, v)).0, PartOfTable(t)) && KeptBut(store, m, PartOfTable(t), all)
    ensures ok == MemoryStep(m, Record(t, v)).1
  {
    ghost var p := PartOfTable(t);
    ghost var keep := () reads Handles(store), Rest(store, p) => KeptBut(store, m, p, all);
    ok := StoreStep(store, keep, t, v, m);
    assert keep();
  }

  method RecordInMemory(store: InMemoryReasoningStore, t: Table, v: Value, ghost m: Memory) returns (ok: bool)
    requires !t.TLedger? && Spells(store, m) && Separate(store)
    modifies Written(store, PartOfTable(t))
    ensures Spells(store, MemoryStep(m, Record(t, v)).0) && Separate(store)
    ensures ok == MemoryStep(m, Record(t, v)).1 && AllWritten(store) == old(AllWritten(store))
  {
    ghost var all := AllWritten(store);
    PartsSpell(store, m, PartOfTable(t));
    WrittenApart(store, PartOfTable(t));
    ok := RecordBeside(store, all, t, v, m);
    SpellsAfter(store, m, Record(t, v), all);
  }

  /** What stays while the ledger grows. */
  ghost predicate Kept(store: InMemoryReasoningStore, m: Memory, others: set<object>, cells: set<object>)
    reads Handles(store), Rest(store, PLedger)
  {
    RestHolds(store, m, PLedger) && OthersApart(store) && OtherObjects(store) == others && Cells(store) == cells
  }

  method LogBeside(store: InMemoryReasoningStore, ghost others: set<object>, ghost cells: set<object>, event: Value,
                   ghost m: Memory)
      returns (ok: bool)
    requires HasScope(event) && LedgerHolds(store, m) && Kept(store, m, others, cells)
    requires Written(store, PLedger) !! others + Handles(store)
    modifies Written(store, PLedger)
    ensures LedgerHolds(store, MemoryStep(m, Log(event)).0) && Kept(store, m, others, cells)
    ensures ok == MemoryStep(m, Log(event)).1
    ensures fresh(Written(store, PLedger) - old(Written(store, PLedger)))
    ensures Written(store, PLedger) !! others + Handles(store)
  {
    assert Rest(store, PLedger) == others;
    ghost var keep := () reads Handles(store), Rest(store, PLedger) => Kept(store, m, others, cells);
    ok := LedgerStep(store, keep, others + Handles(store), event, m);
    assert keep();
  }

  lemma SpellsAgain(store: InMemoryReasoningStore, m: Memory, event: Value, others: set<object>, cells: set<object>)
    requires HasScope(event) && Kept(store, m, others, cells) && LedgerHolds(store, MemoryStep(m, Log(event)).0)
    ensures Spells(store, MemoryStep(m, Log(event)).0)
  {
    RestStays(store, m, Log(event));
    PartsSpell(store, MemoryStep(m, Log(event)).0, PLedger);
  }

  lemma SeparateAgain(store: InMemoryReasoningStore, m: Memory, event: Value, others: set<object>, cells: set<object>)
    requires HasScope(event) && Kept(store, m, others, cells) && LedgerHolds(store, MemoryStep(m, Log(event)).0)
    requires Written(store, PLedger) !! others + Handles(store)
    ensures Separate(store)
  {
  }

  method LogInMemory(store: InMemoryReasoningStore, event: Value, ghost m: Memory) returns (ok: bool)
    requires HasScope(event) && Spells(store, m) && Separate(store)
    modifies Written(store, PLedger)
    ensures Spells(store, MemoryStep(m, Log(event)).0) && Separate(store)
    ensures ok == MemoryStep(m, Log(event)).1 && Cells(store) == old(Cells(store))
    ensures fresh(Written(store, PLedger) - old(Written(store, PLedger)))
  {
    ghost var others, cells := OtherObjects(store), Cells(store);
    PartsSpell(store, m, PLedger);
    ok := LogBeside(store, others, cells, event, m);
    SpellsAgain(store, m, event, others, cells);
    SeparateAgain(store, m, event, others, cells);
  }

  /** Any call on the bundle is the step of its memory. */
  method StepInMemory(store: InMemoryReasoningStore, op: Op, ghost m: Memory) returns (ok: bool)
    requires IsOp(op) && Spells(store, m) && Separate(store)
    modifies AllWritten(store)
    ensures Spells(store, MemoryStep(m, op).0) && Separate(store) && ok == MemoryStep(m, op).1
    ensures fresh(AllWritten(store) - old(AllWritten(store)))
  {
    WrittenIn(store, PartOf(op));
    match op
    case Record(t, v) => ok := RecordInMemory(store, t, v, m);
    case Log(event) => ok := LogInMemory(store, event, m);
  }

  // ----- the same call in SQLite -----

  /** Through the store of the table where there is one; the others are one INSERT too. */
  method RecordInSqlite(conn: Connection, t: Table, v: Value) returns (ok: bool)
    requires !t.TLedger?
    modifies conn`tables
    ensures (conn.tables, ok) == SqlStep(old(conn.tables), Record(t, v))
  {
    ok := true;
    if t.TEvidence? {
      var store := new SqliteEvidenceStore(conn);
      ok := store.Add(v);
    } else if t.TWorldModels? {
      var store := new SqliteWorldModelRepository(conn);
      ok := store.AppendVersion(v);
    } else if t.TCurrentPointer? {
      var store := new SqliteWorldModelRepository(conn);
      store.SetCurrentPointer(v);
    } else if t.THypotheses? {
      var store := new SqliteHypothesisRepository(conn);
      store.Add(v);
    } else if t.TPredictions? {
      var store := new SqlitePredictionRepository(conn);
      store.Add(v);
    } else {
      ok := conn.Insert(t, RowFor(ColumnsOf(t), v));
    }
  }

  method StepInSqlite(conn: Connection, ghost keep: () ~> bool, op: Op, ghost m: Memory) returns (ok: bool)
    requires IsOp(op) && keep.requires() && keep() && conn !in keep.reads()
    modifies conn`tables
    ensures (conn.tables, ok) == SqlStep(old(conn.tables), op)
    ensures keep.requires() && keep()
  {
    match op
    case Record(t, v) => ok := RecordInSqlite(conn, t, v);
    case Log(event) =>
      var ledger := new SqliteRevisionLedgerStore(conn);
      var entry, _ := ledger.AppendEvent(event, m.books);
      ok := entry.Some?;
  }

  // ----- one query -----

  method AskForOne(store: InMemoryReasoningStore, t: Table, cond: Cond, ghost m: Memory) returns (r: Option<Value>)
    requires GetKey(t) != {} && cond.Keys == GetKey(t) && Spells(store, m)
    ensures MemoryAnswer(m, GetOne(t, cond)) == One(r)
  {
    PartsSpell(store, m, PartOfTable(t));
    if t.TEvidence? {
      assert cond == map[CId := cond[CId]];
      r := store.flat.evidence.GetById(cond[CId]);
    } else if t.TPredictions? {
      assert cond == map[CId := cond[CId]];
      r := store.flat.predictions.GetById(cond[CId]);
    } else if t.TWorldModels? {
      var s := Scope(cond[CSpace], cond[CSubject]);
      assert cond == ScopeCond(s)[CVersion := cond[CVersion]];
      r := store.flat.worldModels.GetVersion(s, cond[CVersion]);
    } else if t.TCurrentPointer? {
      var s := Scope(cond[CSpace], cond[CSubject]);
      assert cond == ScopeCond(s);
      r := store.flat.worldModels.GetCurrentPointer(s);
    } else if t.THypotheses? {
      r := store.groups.lists[0].GetFirst(cond);
    } else {
      r := AskDict(store, DictOf(t), cond, m);
    }
  }

  /** Where the store of a table stands among the dict stores, and among the list stores. */
  function DictOf(t: Table): (i: nat)
    requires PartOfTable(t) == PDicts
    ensures i < |DICT_TABLES| && DICT_TABLES[i] == t
  {
    if t.TInference? then 0 else if t.TAnomalies? then 1 else 2
  }

  function ListOf(t: Table): (i: nat)
    requires PartOfTable(t) == PLists
    ensures i < |LIST_TABLES| && LIST_TABLES[i] == t
  {
    if t.THypotheses? then 0 else if t.TInquiries? then 1 else if t.TRecognition? then 2 else 3
  }

  method AskDict(store: InMemoryReasoningStore, i: nat, cond: Cond, ghost m: Memory) returns (r: Option<Value>)
    requires i < |DICT_TABLES| && cond.Keys == {CId} && DictsHold(store, m)
    ensures MemoryAnswer(m, GetOne(DICT_TABLES[i], cond)) == One(r)
  {
    assert store.groups.dicts[i].Serves(DICT_TABLES[i]) && Stored(m, DICT_TABLES[i], store.groups.dicts[i].Contents());
    r := store.groups.dicts[i].Lookup(cond);
  }

  method AskForAll(store: InMemoryReasoningStore, t: Table, cond: Cond, ghost m: Memory) returns (r: seq<Value>)
    requires IsQuery(ListAll(t, cond)) && Spells(store, m)
    ensures MemoryAnswer(m, ListAll(t, cond)) == Many(r)
  {
    PartsSpell(store, m, PartOfTable(t));
    if PartOfTable(t).PLists? {
      r := AskList(store, ListOf(t), cond, m);
    } else {
      var s := Scope(cond[CSpace], cond[CSubject]);
      assert cond == ScopeCond(s);
      if t.TEvidence? {
        r := store.flat.evidence.ListForScope(s);
      } else if t.TPredictions? {
        r := store.flat.predictions.ListForScope(s);
      } else {
        r := ListDict(store, DictOf(t), s, m);
      }
    }
  }

  method AskList(store: InMemoryReasoningStore, i: nat, cond: Cond, ghost m: Memory) returns (r: seq<Value>)
    requires i < |LIST_TABLES| && ListsHold(store, m)
    ensures MemoryAnswer(m, ListAll(LIST_TABLES[i], cond)) == Many(r)
  {
    assert Stored(m, LIST_TABLES[i], store.groups.lists[i].records.v);
    r := store.groups.lists[i].All(cond);
  }

  method ListDict(store: InMemoryReasoningStore, i: nat, s: Scope, ghost m: Memory) returns (r: seq<Value>)
    requires i < |DICT_TABLES| && DictsHold(store, m)
    ensures MemoryAnswer(m, ListAll(DICT_TABLES[i], ScopeCond(s))) == Many(r)
  {
    assert Stored(m, DICT_TABLES[i], store.groups.dicts[i].Contents());
    r := store.groups.dicts[i].ListForScope(s);
  }

  method AskLists(store: InMemoryReasoningStore, q: Query, ghost m: Memory) returns (a: Answer)
    requires IsQuery(q) && (q.Newest? || q.ListLatest?) && ListsHold(store, m)
    ensures a == MemoryAnswer(m, q)
  {
    var i := ListOf(q.t);
    assert Stored(m, LIST_TABLES[i], store.groups.lists[i].records.v);
    if q.Newest? {
      var r := store.groups.lists[i].Latest(q.cond);
      a := One(r);
    } else {
      var r := store.groups.lists[i].ListLatest(q.scope, q.c);
      a := Many(r);
    }
  }

  method AskLedger(store: InMemoryReasoningStore, q: Query, ghost m: Memory) returns (a: Answer)
    requires (q.ReadLedger? || q.ReadSince?) && LedgerHolds(store, m)
    ensures a == MemoryAnswer(m, q)
  {
    if q.ReadLedger? {
      var r := store.nested.ledger.Read(q.scope);
      a := Many(r);
    } else {
      var r := store.nested.ledger.ReadSince(q.scope, q.after);
      a := Many(r);
    }
  }

  /** Any shared query, put to the store it belongs to, is answered as the memory answers it. */
  method AskInMemory(store: InMemoryReasoningStore, q: Query, ghost m: Memory) returns (a: Answer)
    requires IsQuery(q) && Spells(store, m)
    ensures a == MemoryAnswer(m, q)
  {
    assert PartHolds(store, m, PLists) && PartHolds(store, m, PLedger) && PartHolds(store, m, PModels);
    match q
    case GetOne(t, cond) =>
      var r := AskForOne(store, t, cond, m);
      a := One(r);
    case ListAll(t, cond) =>
      var r := AskForAll(store, t, cond, m);
      a := Many(r);
    case CurrentModel(s) =>
      var r := store.flat.worldModels.GetCurrentModel(s);
      a := One(r);
    case ReadLedger(_) => a := AskLedger(store, q, m);
    case ReadSince(_, _) => a := AskLedger(store, q, m);
    case _ => a := AskLists(store, q, m);
  }

  // ----- both, driven through the same calls -----

  /** The bundle spells the memory, its containers are its own, and the connection is not one of them. */
  ghost predicate Ready(store: InMemoryReasoningStore, conn: Connection, m: Memory, all: set<object>)
    reads AllObjects(store), Handles(store)
  {
    Spells(store, m) && Separate(store) && AllWritten(store) == all && conn !in all
  }

  lemma ConnectionIsApart(store: InMemoryReasoningStore, conn: Connection)
    requires conn !in AllWritten(store)
    ensures conn !in AllObjects(store) + Handles(store)
  {
    assert conn !in DictObjects(store) && conn !in ListObjects(store);
  }

  method SqliteBeside(store: InMemoryReasoningStore, conn: Connection, op: Op, ghost m: Memory, ghost all: set<object>)
      returns (ok: bool)
    requires IsOp(op) && Ready(store, conn, m, all)
    modifies conn`tables
    ensures Ready(store, conn, m, all) && (conn.tables, ok) == SqlStep(old(conn.tables), op)
  {
    ghost var keep := () reads AllObjects(store), Handles(store) => Ready(store, conn, m, all);
    ConnectionIsApart(store, conn);
    ok := StepInSqlite(conn, keep, op, m);
    assert keep();
  }

  method MemoryBeside(store: InMemoryReasoningStore, conn: Connection, op: Op, ghost m: Memory, ghost all: set<object>)
      returns (ok: bool, ghost after: set<object>)
    requires IsOp(op) && Ready(store, conn, m, all)
    modifies all
    ensures Ready(store, conn, MemoryStep(m, op).0, after) && ok == MemoryStep(m, op).1
    ensures fresh(after - all) && conn.tables == old(conn.tables)
  {
    ok := StepInMemory(store, op, m);
    after := AllWritten(store);
  }

  method StepBoth(store: InMemoryReasoningStore, conn: Connection, op: Op, ghost m: Memory, ghost all: set<object>)
      returns (inMemory: bool, inSqlite: bool, ghost after: set<object>)
    requires IsOp(op) && Ready(store, conn, m, all)
    modifies all, conn`tables
    ensures Ready(store, conn, MemoryStep(m, op).0, after) && inMemory == MemoryStep(m, op).1
    ensures fresh(after - all) && (conn.tables, inSqlite) == SqlStep(old(conn.tables), op)
  {
    inMemory, after := MemoryBeside(store, conn, op, m, all);
    inSqlite := SqliteBeside(store, conn, op, MemoryStep(m, op).0, after);
  }

  /** One run of calls on the stores on the heap and on the connection. */
  method RunBoth(store: InMemoryReasoningStore, conn: Connection, ops: seq<Op>, ghost m: Memory, ghost all: set<object>)
      returns (inMemory: seq<bool>, inSqlite: seq<bool>, ghost after: set<object>)
    requires Ready(store, conn, m, all) && forall op :: op in ops ==> IsOp(op)
    modifies all, conn`tables
    ensures Ready(store, conn, RunMemory(m, ops).0, after) && inMemory == RunMemory(m, ops).1
    ensures (conn.tables, inSqlite) == RunSql(old(conn.tables), ops)
    decreases |ops|
  {
    if ops == [] {
      return [], [], all;
    }
    var a, b;
    a, b, after := StepBoth(store, conn, ops[0], m, all);
    inMemory, inSqlite, after := RunBoth(store, conn, ops[1..], MemoryStep(m, ops[0]).0, after);
    inMemory, inSqlite := [a] + inMemory, [b] + inSqlite;
  }

  /** From any pair where the database simulates the bundle, after any admissible run: the same calls were
      accepted, and whatever shared query is asked next, the stores on the heap answer what the database does. */
  method SameAnswers(store: InMemoryReasoningStore, conn: Connection, ops: seq<Op>, q: Query, ghost m: Memory,
                     ghost all: set<object>)
      returns (inMemory: seq<bool>, inSqlite: seq<bool>, a: Answer)
    requires Ready(store, conn, m, all) && Sim(m, conn.tables) && KeysUnique(m)
    requires Admissible(m, ops) && IsQuery(q)
    modifies all, conn`tables
    ensures inMemory == inSqlite && a == SqlAnswer(conn.tables, q)
    ensures (forall op :: op in ops ==> IsOp(op)) && a == MemoryAnswer(RunMemory(m, ops).0, q)
  {
    AdmissibleOps(m, ops);
    BackendsAgree(m, conn.tables, ops);
    ghost var after;
    inMemory, inSqlite, after := RunBoth(store, conn, ops, m, all);
    a := AskInMemory(store, q, RunMemory(m, ops).0);
  }

  // ----- new ones to start from -----

  method NewDicts() returns (dicts: seq<InMemoryDictStore>)
    ensures |dicts| == |DICT_TABLES|
    ensures forall i :: 0 <= i < |dicts| ==>
              fresh(dicts[i]) && fresh(dicts[i].byKey) && dicts[i].Valid() && dicts[i].Serves(DICT_TABLES[i])
              && dicts[i].Contents() == []
    ensures forall i, j :: 0 <= i < j < |dicts| ==> dicts[i].byKey != dicts[j].byKey
  {
    var a := new InMemoryDictStore.ForTable(TInference);
    var b := new InMemoryDictStore.ForTable(TAnomalies);
    var c := new InMemoryDictStore.ForTable(TProvenance);
    dicts := [a, b, c];
  }

  method NewLists() returns (lists: seq<InMemoryListStore>)
    ensures |lists| == |LIST_TABLES|
    ensures forall i :: 0 <= i < |lists| ==> fresh(lists[i]) && fresh(lists[i].records) && lists[i].records.v == []
    ensures forall i, j :: 0 <= i < j < |lists| ==> lists[i].records != lists[j].records
  {
    var a := new InMemoryListStore();
    var b := new InMemoryListStore();
    var c := new InMemoryListStore();
    var d := new InMemoryListStore();
    lists := [a, b, c, d];
  }

  lemma SpellsNothing(store: InMemoryReasoningStore)
    requires store.flat.evidence.Valid() && store.flat.evidence.Contents() == []
    requires store.flat.predictions.Valid() && store.flat.predictions.Contents() == []
    requires store.flat.worldModels.Valid()
    requires store.flat.worldModels.Versions() == [] && store.flat.worldModels.Pointers() == []
    requires DictsHold(store, EMPTY_MEMORY) && ListsHold(store, EMPTY_MEMORY)
    requires store.nested.ledger.Valid() && store.nested.ledger.Contents() == map[]
    ensures Spells(store, EMPTY_MEMORY)
  {
    forall p: Part ensures PartHolds(store, EMPTY_MEMORY, p) {
    }
  }

  /** Cells of one type in different parts are different cells. */
  ghost predicate CellsApart(store: InMemoryReasoningStore)
    reads Handles(store)
  {
    var e, w := store.flat.evidence, store.flat.worldModels;
    && e.byId != w.versions && e.byId != w.current
    && forall i :: 0 <= i < |store.groups.dicts| ==>
         store.groups.dicts[i].byKey !in {e.byId, w.versions, w.current}
  }

  lemma PartsApart(store: InMemoryReasoningStore, p: Part, q: Part)
    requires CellsApart(store) && p != q && p != PLedger && q != PLedger
    ensures Written(store, p) !! PartObjects(store, q)
  {
  }

  lemma HandlesApart(store: InMemoryReasoningStore, p: Part)
    requires p != PLedger
    ensures Written(store, p) !! Handles(store)
  {
  }

  lemma SeparateWhen(store: InMemoryReasoningStore)
    requires CellsApart(store) && DictsApart(store) && ListsApart(store)
    requires store.nested.ledger.byScope !in OtherObjects(store)
    requires store.nested.ledger.byScope.Repr !! OtherObjects(store) + Handles(store)
    ensures Separate(store)
  {
    forall p: Part, q: Part | p != q && p != PLedger && q != PLedger
      ensures Written(store, p) !! PartObjects(store, q)
    {
      PartsApart(store, p, q);
    }
    forall p: Part | p != PLedger ensures Written(store, p) !! Handles(store) {
      HandlesApart(store, p);
    }
  }

  /** New stores hold nothing, in containers of their own, all of them among those just made. */
  ghost predicate NewFlatStores(flat: FlatStores, made: set<object>)
    reads flat.evidence, flat.predictions, flat.worldModels, flat.contexts, flat.Objects()
  {
    && flat.Valid() && flat.evidence.Contents() == [] && flat.predictions.Contents() == []
    && flat.worldModels.Versions() == [] && flat.worldModels.Pointers() == []
    && flat.evidence.byId !in {flat.worldModels.versions, flat.worldModels.current} && flat.Objects() <= made
  }

  ghost predicate NewGroupStores(groups: GroupStores, made: set<object>)
    reads groups.dicts, groups.lists, groups.Objects()
  {
    && |groups.dicts| == |DICT_TABLES| && |groups.lists| == |LIST_TABLES|
    && (forall i :: 0 <= i < |groups.dicts| ==>
          var d := groups.dicts[i];
          d in made && d.byKey in made && d.Valid() && d.Serves(DICT_TABLES[i]) && d.Contents() == [])
    && (forall i :: 0 <= i < |groups.lists| ==>
          var s := groups.lists[i]; s in made && s.records in made && s.records.v == [])
    && (forall i, j :: 0 <= i < j < |groups.dicts| ==> groups.dicts[i].byKey != groups.dicts[j].byKey)
    && (forall i, j :: 0 <= i < j < |groups.lists| ==> groups.lists[i].records != groups.lists[j].records)
  }

  ghost predicate NewNestedStores(nested: NestedStores, made: set<object>)
    reads nested.ledger, nested.ledger.byScope, nested.ledger.byScope.Repr
  {
    && nested.ledger.Valid() && nested.ledger.Contents() == map[]
    && nested.ledger in made && nested.ledger.byScope in made && nested.ledger.byScope.Repr <= made
  }

  lemma GroupsSpell(store: InMemoryReasoningStore, made: set<object>)
    requires NewGroupStores(store.groups, made)
    ensures DictsHold(store, EMPTY_MEMORY) && ListsHold(store, EMPTY_MEMORY)
    ensures DictObjects(store) <= made && ListObjects(store) <= made
  {
  }

  lemma NewSpells(store: InMemoryReasoningStore, a: set<object>, b: set<object>, c: set<object>)
    requires NewFlatStores(store.flat, a) && NewGroupStores(store.groups, b) && NewNestedStores(store.nested, c)
    ensures Spells(store, EMPTY_MEMORY)
  {
    GroupsSpell(store, b);
    SpellsNothing(store);
  }

  lemma NewCellsApart(store: InMemoryReasoningStore, a: set<object>, b: set<object>)
    requires NewFlatStores(store.flat, a) && NewGroupStores(store.groups, b) && a !! b
    ensures CellsApart(store) && DictsApart(store) && ListsApart(store)
  {
  }

  lemma LedgerApart(store: InMemoryReasoningStore, a: set<object>, b: set<object>, c: set<object>)
    requires OtherObjects(store) <= a + b && Cells(store) <= a + b
    requires Handles(store) <= a + b + {store.nested.ledger}
    requires store.nested.ledger !in store.nested.ledger.byScope.Repr
    requires store.nested.ledger.byScope in c && store.nested.ledger.byScope.Repr <= c && c !! a && c !! b
    ensures store.nested.ledger.byScope !in OtherObjects(store)
    ensures store.nested.ledger.byScope.Repr !! OtherObjects(store) + Handles(store)
    ensures AllWritten(store) <= a + b + c
  {
    SetsApart(OtherObjects(store), Handles(store), Cells(store), store.nested.ledger.byScope.Repr, store.nested.ledger,
              a, b, c);
  }

  lemma SetsApart(others: set<object>, handles: set<object>, cells: set<object>, repr: set<object>, ledger: object,
                  a: set<object>, b: set<object>, c: set<object>)
    requires others <= a + b && handles <= a + b + {ledger} && cells <= a + b
    requires repr <= c && ledger !in repr && c !! a && c !! b
    ensures repr !! others + handles && cells + repr <= a + b + c
    ensures forall x :: x in c ==> x !in others
  {
  }

  lemma OthersWithin(store: InMemoryReasoningStore, a: set<object>, b: set<object>)
    requires PartObjects(store, PEvidence) <= a && PartObjects(store, PPredictions) <= a
             && PartObjects(store, PModels) <= a
    requires DictObjects(store) <= b && ListObjects(store) <= b
    ensures OtherObjects(store) <= a + b && Cells(store) <= a + b
    ensures Handles(store) <= a + b + {store.nested.ledger}
  {
  }

  lemma FlatWithin(store: InMemoryReasoningStore, made: set<object>)
    requires NewFlatStores(store.flat, made)
    ensures PartObjects(store, PEvidence) <= made && PartObjects(store, PPredictions) <= made
    ensures PartObjects(store, PModels) <= made
  {
  }

  method NewGroups() returns (groups: GroupStores, ghost made: set<object>)
    ensures fresh(made) && NewGroupStores(groups, made)
  {
    var dicts := NewDicts();
    var lists := NewLists();
    groups := new GroupStores(dicts, lists);
    made := (set i | 0 <= i < |dicts| :: dicts[i] as object) + (set i | 0 <= i < |dicts| :: dicts[i].byKey as object)
          + (set i | 0 <= i < |lists| :: lists[i] as object) + (set i | 0 <= i < |lists| :: lists[i].records as object);
  }

  method NewLedger() returns (nested: NestedStores, ghost made: set<object>)
    ensures fresh(made) && NewNestedStores(nested, made)
  {
    var ledger := new InMemoryRevisionLedgerStore();
    var lineages := new InMemoryHypothesisLineageStore();
    var versions := new InMemoryStatementVersionStore();
    nested := new NestedStores(ledger, lineages, versions);
    made := {ledger as object, ledger.byScope} + ledger.byScope.Repr;
  }

  method NewFlat() returns (flat: FlatStores, ghost made: set<object>)
    ensures fresh(made) && NewFlatStores(flat, made)
  {
    var evidence := new InMemoryEvidenceStore();
    var predictions := new InMemoryPredictionRepository();
    var models := new InMemoryWorldModelRepository();
    var contexts := new InMemorySystemModellingContextStore();
    flat := new FlatStores(evidence, predictions, models, contexts);
    made := flat.Objects();
  }

  method NewLedgerAndFlat() returns (flat: FlatStores, nested: NestedStores, ghost a: set<object>, ghost c: set<object>)
    ensures NewFlatStores(flat, a) && NewNestedStores(nested, c)
    ensures fresh(a) && fresh(c) && c !! a
  {
    nested, c := NewLedger();
    flat, a := NewFlat();
  }

  method NewParts() returns (flat: FlatStores, groups: GroupStores, nested: NestedStores,
                             ghost a: set<object>, ghost b: set<object>, ghost c: set<object>)
    ensures NewFlatStores(flat, a) && NewGroupStores(groups, b) && NewNestedStores(nested, c)
    ensures fresh(a + b + c) && a !! b && c !! a && c !! b
  {
    flat, nested, a, c := NewLedgerAndFlat();
    groups, b := NewGroups();
  }

  lemma NewIsReady(store: InMemoryReasoningStore, conn: Connection, a: set<object>, b: set<object>, c: set<object>)
    requires NewFlatStores(store.flat, a) && NewGroupStores(store.groups, b) && NewNestedStores(store.nested, c)
    requires a !! b && c !! a && c !! b && conn !in a + b + c
    ensures Ready(store, conn, EMPTY_MEMORY, AllWritten(store)) && AllWritten(store) <= a + b + c
  {
    NewSpells(store, a, b, c);
    NewCellsApart(store, a, b);
    GroupsSpell(store, b);
    FlatWithin(store, a);
    OthersWithin(store, a, b);
    LedgerApart(store, a, b, c);
    SeparateWhen(store);
  }

  /** New stores are ready, and spell out nothing. */
  method NewStore(conn: Connection)
      returns (store: InMemoryReasoningStore, ghost all: set<object>, ghost made: set<object>)
    ensures Ready(store, conn, EMPTY_MEMORY, all) && all <= made && fresh(made)
  {
    var flat, groups, nested;
    ghost var a, b, c;
    flat, groups, nested, a, b, c := NewParts();
    made := a + b + c;
    store := new InMemoryReasoningStore(flat, groups, nested);
    NewIsReady(store, conn, a, b, c);
    all := AllWritten(store);
  }

  method NewConnection() returns (conn: Connection)
    ensures fresh(conn) && Sim(EMPTY_MEMORY, conn.tables) && KeysUnique(EMPTY_MEMORY)
  {
    conn := new Connection();
    EmptySimulates(conn.tables);
  }

  method NewBackends()
      returns (store: InMemoryReasoningStore, conn: Connection, ghost all: set<object>, ghost made: set<object>)
    ensures Ready(store, conn, EMPTY_MEMORY, all) && Sim(EMPTY_MEMORY, conn.tables) && KeysUnique(EMPTY_MEMORY)
    ensures fresh(conn) && all <= made && fresh(made)
  {
    conn := NewConnection();
    store, all, made := NewStore(conn);
  }

  /** The same from new stores and a new connection, for every query method; and the one answer is what the
      method promises about the records that were accepted. */
  method FromScratch(ops: seq<Op>, c: Call)
      returns (conn: Connection, inMemory: seq<bool>, inSqlite: seq<bool>, a: Answer)
    requires Admissible(EMPTY_MEMORY, ops)
    ensures inMemory == inSqlite && a == SqlAnswer(conn.tables, QueryOf(c))
    ensures (forall op :: op in ops ==> IsOp(op)) && Means(RunMemory(EMPTY_MEMORY, ops).0, c, a)
  {
    CallIsQuery(c);
    var store;
    ghost var all, made;
    store, conn, all, made := NewBackends();
    inMemory, inSqlite, a := SameAnswers(store, conn, ops, QueryOf(c), EMPTY_MEMORY, all);
    RunIsNumbered(ops);
    MemoryMeans(RunMemory(EMPTY_MEMORY, ops).0, c);
  }
}
