/** Snapshot and restore of the whole bundle of in-memory stores.

    A token holds copies of every mutable container a store owns.  The stores keep three shapes of them:
    cells with one flat container each, several stores of one class, and dicts of lists, where copying
    the dict alone would keep sharing the lists.  Each group of stores is undone as a whole. */
module Bundle {
  import opened Domain
  import opened Tables
  import opened Containers
  import opened Keyed
  import opened Ledger
  import opened InMemory
  import opened Semantic
  import opened Contexts

  /** What the queries of evidence, predictions, world models and modelling contexts are answered from. */
  datatype FlatState = FlatState(
    evidence: Records, refs: map<Value, Value>, predictions: map<Key, Value>, order: seq<Key>,
    versions: Records, current: Records, contexts: BySubject)
  {
    ghost predicate Valid() {
      && KeyedBy(evidence, {CId}) && refs == RefIndex(evidence.Values())
      && KeyedBy(Dict(order, predictions), {CId})
      && KeyedBy(versions, {CSpace, CSubject, CVersion}) && KeyedBy(current, {CSpace, CSubject})
    }
  }

  /** The same for the stores that keep one dict each, and one list each. */
  datatype GroupState = GroupState(dicts: seq<Records>, lists: seq<seq<Value>>)

  datatype NestedState = NestedState(
    ledger: Books, lineages: seq<HypothesisLineage>, versions: map<string, seq<StatementVersion>>)

  datatype FlatToken = FlatToken(
    evidence: EvidenceToken, predictions: PredictionToken, models: ModelToken, contexts: ContextToken)
  {
    ghost function Objects(): set<object> {
      {evidence.byId as object, evidence.byRef, predictions.byId, predictions.order, models.versions, models.current,
       contexts.bySubject}
    }

    ghost predicate Holds(s: FlatState)
      reads Objects()
    {
      && evidence.byId.v == s.evidence && evidence.byRef.v == s.refs
      && predictions.byId.v == s.predictions && predictions.order.v == s.order
      && models.versions.v == s.versions && models.current.v == s.current && contexts.bySubject.v == s.contexts
    }
  }

  datatype GroupToken = GroupToken(dicts: seq<DictToken>, lists: seq<ListToken>) {
    ghost function Objects(): set<object> {
      (set i | 0 <= i < |dicts| :: dicts[i].byKey as object) + (set i | 0 <= i < |lists| :: lists[i].records as object)
    }

    ghost predicate Holds(s: GroupState)
      reads Objects()
    {
      && |dicts| == |s.dicts| && (forall i :: 0 <= i < |dicts| ==> dicts[i].byKey.v == s.dicts[i])
      && |lists| == |s.lists| && (forall i :: 0 <= i < |lists| ==> lists[i].records.v == s.lists[i])
    }
  }

  datatype NestedToken = NestedToken(ledger: LedgerToken, lineages: LineageToken, versions: StatementToken) {
    ghost function Objects(): set<object>
      reads ledger.byScope, lineages.byKey, versions.byLineage
    {
      {ledger.byScope as object, lineages.byId, lineages.byKey, versions.byLineage}
      + ledger.byScope.Repr + lineages.byKey.Repr + versions.byLineage.Repr
    }

    ghost predicate Holds(s: NestedState)
      reads ledger.byScope, lineages.byKey, versions.byLineage, Objects()
    {
      ledger.Holds(s.ledger) && lineages.Holds(s.lineages) && versions.Holds(s.versions)
    }
  }

  // ----- evidence, predictions, world models, modelling contexts -----

  class FlatStores {
    const evidence: InMemoryEvidenceStore
    const predictions: InMemoryPredictionRepository
    const worldModels: InMemoryWorldModelRepository
    const contexts: InMemorySystemModellingContextStore

    ghost function Stores(): set<object> {
      {evidence as object, predictions, worldModels, contexts}
    }

    ghost function Objects(): set<object>
      reads evidence, predictions, worldModels, contexts
    {
      {evidence as object, predictions, worldModels, contexts, evidence.byId, evidence.byRef, predictions.byId,
       predictions.order, worldModels.versions, worldModels.current, contexts.bySubject}
    }

    ghost predicate Is(s: FlatState)
      reads evidence, predictions, worldModels, contexts, Objects()
    {
      && evidence.byId.v == s.evidence && evidence.byRef.v == s.refs
      && predictions.byId.v == s.predictions && predictions.order.v == s.order
      && worldModels.versions.v == s.versions && worldModels.current.v == s.current
      && worldModels.versions != worldModels.current && contexts.bySubject.v == s.contexts
    }

    /** The invariants of the three stores, on which their queries rely. */
    ghost predicate Valid()
      reads evidence, predictions, worldModels, contexts, Objects()
    {
      evidence.Valid() && predictions.Valid() && worldModels.Valid()
    }

    /** They depend on the state only, so a store brought back is one its queries can be asked of. */
    lemma ValidIs(s: FlatState)
      requires Is(s)
      ensures Valid() <==> s.Valid()
    {
    }

    constructor (evidence: InMemoryEvidenceStore, predictions: InMemoryPredictionRepository,
                 worldModels: InMemoryWorldModelRepository, contexts: InMemorySystemModellingContextStore)
      ensures this.evidence == evidence && this.predictions == predictions
      ensures this.worldModels == worldModels && this.contexts == contexts
    {
      this.evidence, this.predictions, this.worldModels, this.contexts := evidence, predictions, worldModels, contexts;
    }

    method Snapshot(ghost s: FlatState) returns (token: FlatToken)
      requires Is(s)
      ensures token.Holds(s) && fresh(token.Objects())
    {
      var e := evidence.Snapshot();
      var p := predictions.Snapshot();
      var w := worldModels.Snapshot();
      var c := contexts.Snapshot();
      token := FlatToken(e, p, w, c);
    }

    method RestoreTwo(token: FlatToken, ghost s: FlatState)
      requires token.Holds(s)
      modifies evidence, predictions
      ensures evidence.byId.v == s.evidence && evidence.byRef.v == s.refs
      ensures predictions.byId.v == s.predictions && predictions.order.v == s.order
      ensures fresh(evidence.byId) && fresh(evidence.byRef) && fresh(predictions.byId) && fresh(predictions.order)
      ensures token.Holds(s)
    {
      evidence.Restore(token.evidence);
      predictions.Restore(token.predictions);
    }

    method Restore(token: FlatToken, ghost s: FlatState) returns (ghost made: set<object>)
      requires token.Holds(s)
      modifies evidence, predictions, worldModels, contexts
      ensures Is(s) && fresh(made) && Objects() <= made + Stores()
    {
      RestoreTwo(token, s);
      worldModels.Restore(token.models);
      contexts.Restore(token.contexts);
      made := Objects() - Stores();
    }
  }

  // ----- inference, anomalies, provenance, adjudications; hypotheses, inquiries, recognition, edges -----

  class GroupStores {
    const dicts: seq<InMemoryDictStore>
    const lists: seq<InMemoryListStore>

    ghost function Stores(): set<object> {
      (set i | 0 <= i < |dicts| :: dicts[i] as object) + (set i | 0 <= i < |lists| :: lists[i] as object)
    }

    ghost function Objects(): set<object>
      reads dicts, lists
    {
      Stores() + (set i | 0 <= i < |dicts| :: dicts[i].byKey as object)
               + (set i | 0 <= i < |lists| :: lists[i].records as object)
    }

    ghost predicate Is(s: GroupState)
      reads dicts, lists, Objects()
    {
      && |dicts| == |s.dicts| && (forall i :: 0 <= i < |dicts| ==> dicts[i].byKey.v == s.dicts[i])
      && |lists| == |s.lists| && (forall i :: 0 <= i < |lists| ==> lists[i].records.v == s.lists[i])
    }

    ghost predicate Valid()
      reads dicts, Objects()
    {
      forall i :: 0 <= i < |dicts| ==> dicts[i].Valid()
    }

    /** Every dict of the state is keyed by the columns of its store. */
    ghost predicate KeyedAs(s: GroupState) {
      |s.dicts| == |dicts| && forall i :: 0 <= i < |dicts| ==> KeyedBy(s.dicts[i], dicts[i].cols)
    }

    lemma ValidIs(s: GroupState)
      requires Is(s)
      ensures Valid() <==> KeyedAs(s)
    {
      assert forall i :: 0 <= i < |dicts| ==> dicts[i].byKey.v == s.dicts[i];
    }

    /** The stores are different objects. */
    ghost predicate Apart() {
      && (forall i, j :: 0 <= i < j < |dicts| ==> dicts[i] != dicts[j])
      && (forall i, j :: 0 <= i < j < |lists| ==> lists[i] != lists[j])
    }

    constructor (dicts: seq<InMemoryDictStore>, lists: seq<InMemoryListStore>)
      ensures this.dicts == dicts && this.lists == lists
    {
      this.dicts, this.lists := dicts, lists;
    }

    method SnapshotDicts() returns (tokens: seq<DictToken>)
      ensures |tokens| == |dicts|
      ensures forall i :: 0 <= i < |dicts| ==> fresh(tokens[i].byKey) && tokens[i].byKey.v == dicts[i].byKey.v
    {
      tokens := [];
      for i := 0 to |dicts|
        invariant |tokens| == i
        invariant forall k :: 0 <= k < i ==> fresh(tokens[k].byKey) && tokens[k].byKey.v == dicts[k].byKey.v
      {
        var t := dicts[i].Snapshot();
        tokens := tokens + [t];
      }
    }

    method SnapshotLists() returns (tokens: seq<ListToken>)
      ensures |tokens| == |lists|
      ensures forall i :: 0 <= i < |lists| ==> fresh(tokens[i].records) && tokens[i].records.v == lists[i].records.v
    {
      tokens := [];
      for i := 0 to |lists|
        invariant |tokens| == i
        invariant forall k :: 0 <= k < i ==> fresh(tokens[k].records) && tokens[k].records.v == lists[k].records.v
      {
        var t := lists[i].Snapshot();
        tokens := tokens + [t];
      }
    }

    method Snapshot(ghost s: GroupState) returns (token: GroupToken)
      requires Is(s)
      ensures token.Holds(s)
      ensures forall i :: 0 <= i < |token.dicts| ==> fresh(token.dicts[i].byKey)
      ensures forall i :: 0 <= i < |token.lists| ==> fresh(token.lists[i].records)
    {
      var ds := SnapshotDicts();
      var ls := SnapshotLists();
      token := GroupToken(ds, ls);
    }

    method RestoreDicts(tokens: seq<DictToken>)
      requires |tokens| == |dicts| && forall i, j :: 0 <= i < j < |dicts| ==> dicts[i] != dicts[j]
      modifies dicts
      ensures forall i :: 0 <= i < |dicts| ==> fresh(dicts[i].byKey) && dicts[i].byKey.v == old(tokens[i].byKey.v)
    {
      for i := 0 to |dicts|
        invariant forall k :: 0 <= k < i ==> fresh(dicts[k].byKey) && dicts[k].byKey.v == old(tokens[k].byKey.v)
      {
        dicts[i].Restore(tokens[i]);
      }
    }

    method RestoreLists(tokens: seq<ListToken>)
      requires |tokens| == |lists| && forall i, j :: 0 <= i < j < |lists| ==> lists[i] != lists[j]
      modifies lists
      ensures forall i :: 0 <= i < |lists| ==> fresh(lists[i].records) && lists[i].records.v == old(tokens[i].records.v)
    {
      for i := 0 to |lists|
        invariant forall k :: 0 <= k < i ==> fresh(lists[k].records) && lists[k].records.v == old(tokens[k].records.v)
      {
        lists[i].Restore(tokens[i]);
      }
    }

    method Restore(token: GroupToken, ghost s: GroupState) returns (ghost made: set<object>)
      requires token.Holds(s) && Apart() && |token.dicts| == |dicts| && |token.lists| == |lists|
      modifies dicts, lists
      ensures Is(s) && fresh(made)
      ensures forall i :: 0 <= i < |dicts| ==> dicts[i].byKey in made
      ensures forall i :: 0 <= i < |lists| ==> lists[i].records in made
    {
      RestoreDicts(token.dicts);
      RestoreLists(token.lists);
      made := (set i | 0 <= i < |dicts| :: dicts[i].byKey as object)
            + (set i | 0 <= i < |lists| :: lists[i].records as object);
    }
  }

  // ----- ledger, lineages, statement versions -----

  class NestedStores {
    const ledger: InMemoryRevisionLedgerStore
    const lineages: InMemoryHypothesisLineageStore
    const versions: InMemoryStatementVersionStore

    ghost function Objects(): set<object>
      reads ledger, lineages, versions, ledger.byScope, lineages.byKey, versions.byLineage
    {
      {ledger as object, lineages, versions, lineages.byId, ledger.byScope, lineages.byKey, versions.byLineage}
      + ledger.byScope.Repr + lineages.byKey.Repr + versions.byLineage.Repr
    }

    ghost predicate Is(s: NestedState)
      reads ledger, lineages, versions, ledger.byScope, lineages.byKey, versions.byLineage, Objects()
    {
      && ledger.Valid() && ledger.Contents() == s.ledger
      && lineages.Valid() && lineages.Contents() == s.lineages
      && versions.Valid() && versions.Contents() == s.versions
    }

    constructor (ledger: InMemoryRevisionLedgerStore, lineages: InMemoryHypothesisLineageStore,
                 versions: InMemoryStatementVersionStore)
      ensures this.ledger == ledger && this.lineages == lineages && this.versions == versions
    {
      this.ledger, this.lineages, this.versions := ledger, lineages, versions;
    }

    /** The token's containers do not include the stores themselves. */
    ghost predicate Outside(token: NestedToken)
      reads token.ledger.byScope, token.lineages.byKey, token.versions.byLineage
    {
      && ledger !in token.Objects() && lineages !in token.Objects() && versions !in token.Objects()
    }

    method SnapshotTwo(ghost s: NestedState) returns (l: LedgerToken, n: LineageToken)
      requires Is(s)
      ensures l.Holds(s.ledger) && n.Holds(s.lineages)
      ensures fresh(l.byScope) && fresh(l.byScope.Repr)
      ensures fresh(n.byId) && fresh(n.byKey) && fresh(n.byKey.Repr)
    {
      l := ledger.Snapshot();
      n := lineages.Snapshot();
    }

    method Snapshot(ghost s: NestedState) returns (token: NestedToken)
      requires Is(s)
      ensures token.Holds(s) && fresh(token.Objects())
    {
      var l, n := SnapshotTwo(s);
      var v := versions.Snapshot();
      token := NestedToken(l, n, v);
    }

    method RestoreTwo(l: LedgerToken, n: LineageToken, ghost s: NestedState)
      requires l.Holds(s.ledger) && n.Holds(s.lineages)
      requires ledger !in l.byScope.Repr && ledger !in n.byKey.Repr && lineages !in n.byKey.Repr
      modifies ledger, lineages
      ensures ledger.Valid() && ledger.Contents() == s.ledger
      ensures lineages.Valid() && lineages.Contents() == s.lineages
      ensures fresh(ledger.byScope) && fresh(ledger.byScope.Repr)
      ensures fresh(lineages.byId) && fresh(lineages.byKey) && fresh(lineages.byKey.Repr)
    {
      ledger.Restore(l, s.ledger);
      lineages.Restore(n, s.lineages);
    }

    method RestoreThree(token: NestedToken, ghost s: NestedState)
      requires token.Holds(s) && Outside(token)
      modifies ledger, lineages, versions
      ensures Is(s)
      ensures fresh(ledger.byScope) && fresh(ledger.byScope.Repr)
      ensures fresh(lineages.byId) && fresh(lineages.byKey) && fresh(lineages.byKey.Repr)
      ensures fresh(versions.byLineage) && fresh(versions.byLineage.Repr)
    {
      RestoreTwo(token.ledger, token.lineages, s);
      versions.Restore(token.versions, s.versions);
    }

    /** The token keeps its contents, so it can be restored again. */
    method Restore(token: NestedToken, ghost s: NestedState) returns (ghost made: set<object>)
      requires token.Holds(s) && Outside(token)
      modifies ledger, lineages, versions
      ensures Is(s) && token.Holds(s) && token.Objects() == old(token.Objects())
      ensures fresh(made) && Objects() <= made + {ledger, lineages, versions}
    {
      RestoreThree(token, s);
      made := {ledger.byScope as object, lineages.byId, lineages.byKey, versions.byLineage}
            + ledger.byScope.Repr + lineages.byKey.Repr + versions.byLineage.Repr;
    }
  }

  // ----- undoing anything -----

  method DisturbFlat(stores: FlatStores, token: FlatToken, ghost s: FlatState)
    requires token.Holds(s) && stores.Objects() !! token.Objects()
    modifies stores.Objects()
    ensures token.Holds(s) && stores.Stores() !! token.Objects()
  {
    modify stores.Objects();
  }

  /** Whatever was done to a group of stores and to every container it can reach, restoring the token brings
      back the state it was taken in and leaves the token fit to be restored again. */
  method UndoFlat(stores: FlatStores, token: FlatToken, ghost s: FlatState) returns (ghost made: set<object>)
    requires token.Holds(s) && stores.Objects() !! token.Objects()
    modifies stores.Objects()
    ensures stores.Is(s) && token.Holds(s) && stores.Objects() !! token.Objects()
    ensures stores.Valid() <==> s.Valid()
    ensures fresh(made) && stores.Objects() <= made + stores.Stores()
  {
    DisturbFlat(stores, token, s);
    made := stores.Restore(token, s);
    stores.ValidIs(s);
  }

  /** No container of the token is one the stores use. */
  ghost predicate GroupsApart(stores: GroupStores, token: GroupToken)
    reads stores.dicts, stores.lists
  {
    && (forall i, j :: 0 <= i < |stores.dicts| && 0 <= j < |token.dicts| ==>
          stores.dicts[i].byKey != token.dicts[j].byKey)
    && (forall i, j :: 0 <= i < |stores.lists| && 0 <= j < |token.lists| ==>
          stores.lists[i].records != token.lists[j].records)
  }

  method DisturbGroups(stores: GroupStores, token: GroupToken, ghost s: GroupState)
    requires token.Holds(s) && GroupsApart(stores, token)
    modifies stores.Objects()
    ensures token.Holds(s)
  {
    modify stores.Objects();
  }

  method UndoGroups(stores: GroupStores, token: GroupToken, ghost s: GroupState)
    requires token.Holds(s) && GroupsApart(stores, token)
    requires stores.Apart() && |token.dicts| == |stores.dicts| && |token.lists| == |stores.lists|
    modifies stores.Objects()
    ensures stores.Is(s) && token.Holds(s) && GroupsApart(stores, token)
    ensures forall i :: 0 <= i < |stores.dicts| ==> fresh(stores.dicts[i].byKey)
    ensures forall i :: 0 <= i < |stores.lists| ==> fresh(stores.lists[i].records)
  {
    DisturbGroups(stores, token, s);
    ghost var _ := stores.Restore(token, s);
  }

  lemma ApartIsOutside(stores: NestedStores, token: NestedToken)
    requires stores.Objects() !! token.Objects()
    ensures stores.Outside(token)
  {
  }

  method DisturbNested(stores: NestedStores, token: NestedToken, ghost s: NestedState)
    requires token.Holds(s) && stores.Objects() !! token.Objects()
    modifies stores.Objects()
    ensures token.Holds(s) && token.Objects() == old(token.Objects()) && stores.Outside(token)
  {
    ApartIsOutside(stores, token);
    modify stores.Objects();
  }

  method UndoNested(stores: NestedStores, token: NestedToken, ghost s: NestedState) returns (ghost made: set<object>)
    requires token.Holds(s) && stores.Objects() !! token.Objects()
    modifies stores.Objects()
    ensures stores.Is(s) && token.Holds(s) && token.Objects() == old(token.Objects())
    ensures fresh(made) && stores.Objects() <= made + {stores.ledger, stores.lineages, stores.versions}
  {
    DisturbNested(stores, token, s);
    made := stores.Restore(token, s);
  }

  /** Two rollbacks from one snapshot, with arbitrary writes before each. */
  method RollbackFlatTwice(stores: FlatStores, ghost s: FlatState)
    requires stores.Is(s)
    modifies stores.Objects()
    ensures stores.Is(s) && stores.Valid() == old(stores.Valid())
  {
    stores.ValidIs(s);
    var token := stores.Snapshot(s);
    ghost var _ := UndoFlat(stores, token, s);
    ghost var _ := UndoFlat(stores, token, s);
  }

  method RollbackGroupsTwice(stores: GroupStores, ghost s: GroupState)
    requires stores.Is(s) && stores.Apart()
    modifies stores.Objects()
    ensures stores.Is(s) && stores.Valid() == old(stores.Valid())
  {
    stores.ValidIs(s);
    var token := stores.Snapshot(s);
    UndoGroups(stores, token, s);
    UndoGroups(stores, token, s);
    stores.ValidIs(s);
  }

  method RollbackNestedTwice(stores: NestedStores, ghost s: NestedState)
    requires stores.Is(s)
    modifies stores.Objects()
    ensures stores.Is(s)
  {
    var token := stores.Snapshot(s);
    ghost var _ := UndoNested(stores, token, s);
    ghost var _ := UndoNested(stores, token, s);
  }

  // ----- all of it at once -----

  datatype State = State(flat: FlatState, groups: GroupState, nested: NestedState)

  class InMemoryReasoningStore {
    const flat: FlatStores
    const groups: GroupStores
    const nested: NestedStores

    constructor (flat: FlatStores, groups: GroupStores, nested: NestedStores)
      ensures this.flat == flat && this.groups == groups && this.nested == nested
    {
      this.flat, this.groups, this.nested := flat, groups, nested;
    }

    method SnapshotOthers(ghost s: State) returns (f: FlatToken, g: GroupToken)
      requires flat.Is(s.flat) && groups.Is(s.groups) && nested.Is(s.nested)
      ensures f.Holds(s.flat) && g.Holds(s.groups) && nested.Is(s.nested)
      ensures fresh(f.Objects())
      ensures forall i :: 0 <= i < |g.dicts| ==> fresh(g.dicts[i].byKey)
      ensures forall i :: 0 <= i < |g.lists| ==> fresh(g.lists[i].records)
    {
      f := flat.Snapshot(s.flat);
      g := groups.Snapshot(s.groups);
    }

    method Snapshot(ghost s: State) returns (f: FlatToken, g: GroupToken, n: NestedToken)
      requires flat.Is(s.flat) && groups.Is(s.groups) && nested.Is(s.nested)
      ensures f.Holds(s.flat) && g.Holds(s.groups) && n.Holds(s.nested)
      ensures fresh(f.Objects()) && fresh(n.Objects())
      ensures forall i :: 0 <= i < |g.dicts| ==> fresh(g.dicts[i].byKey)
      ensures forall i :: 0 <= i < |g.lists| ==> fresh(g.lists[i].records)
    {
      f, g := SnapshotOthers(s);
      n := nested.Snapshot(s.nested);
    }

    /** Every store, and every container a store currently uses. */
    ghost function Objects(): set<object>
      reads flat.evidence, flat.predictions, flat.worldModels, flat.contexts, groups.dicts, groups.lists
      reads nested.ledger, nested.lineages, nested.versions, nested.ledger.byScope, nested.lineages.byKey,
            nested.versions.byLineage
    {
      flat.Objects() + groups.Objects() + nested.Objects()
    }

    /** The stores of the first two groups. */
    ghost function Others(): set<object> {
      flat.Stores() + groups.Stores()
    }

    /** Every container of the tokens is among the held objects, and tokens and stores match in number. */
    ghost predicate TokensIn(held: set<object>, f: FlatToken, g: GroupToken, n: NestedToken)
      reads n.ledger.byScope, n.lineages.byKey, n.versions.byLineage
    {
      && f.Objects() <= held && n.Objects() <= held
      && |g.dicts| == |groups.dicts| && (forall i :: 0 <= i < |g.dicts| ==> g.dicts[i].byKey in held)
      && |g.lists| == |groups.lists| && (forall i :: 0 <= i < |g.lists| ==> g.lists[i].records in held)
    }

    /** The tokens share nothing with what there was before. */
    method SnapshotFor(ghost owned: set<object>, ghost s: State)
        returns (f: FlatToken, g: GroupToken, n: NestedToken, ghost held: set<object>)
      requires flat.Is(s.flat) && groups.Is(s.groups) && nested.Is(s.nested)
      ensures f.Holds(s.flat) && g.Holds(s.groups) && n.Holds(s.nested)
      ensures TokensIn(held, f, g, n) && owned !! held
    {
      f, g, n := Snapshot(s);
      held := f.Objects() + n.Objects()
            + (set i | 0 <= i < |g.dicts| :: g.dicts[i].byKey as object)
            + (set i | 0 <= i < |g.lists| :: g.lists[i].records as object);
    }

    /** Anything at all happens to some objects, none of which a token holds. */
    method Disturb(ghost owned: set<object>, ghost held: set<object>, f: FlatToken, g: GroupToken, n: NestedToken,
                   ghost s: State)
      requires f.Holds(s.flat) && g.Holds(s.groups) && n.Holds(s.nested)
      requires TokensIn(held, f, g, n) && owned !! held
      modifies owned
      ensures f.Holds(s.flat) && g.Holds(s.groups) && n.Holds(s.nested) && TokensIn(held, f, g, n)
    {
      modify owned;
    }

    method RestoreFlat(f: FlatToken, g: GroupToken, ghost s: State) returns (ghost made: set<object>)
      requires f.Holds(s.flat) && g.Holds(s.groups)
      modifies flat.evidence, flat.predictions, flat.worldModels, flat.contexts
      ensures flat.Is(s.flat) && f.Holds(s.flat) && g.Holds(s.groups)
      ensures fresh(made) && flat.Objects() <= made + flat.Stores()
    {
      made := flat.Restore(f, s.flat);
    }

    method RestoreGroups(f: FlatToken, g: GroupToken, ghost s: State) returns (ghost made: set<object>)
      requires f.Holds(s.flat) && g.Holds(s.groups) && groups.Apart() && flat.Is(s.flat)
      requires |g.dicts| == |groups.dicts| && |g.lists| == |groups.lists|
      modifies groups.dicts, groups.lists
      ensures flat.Is(s.flat) && groups.Is(s.groups) && f.Holds(s.flat) && g.Holds(s.groups)
      ensures flat.Objects() == old(flat.Objects()) && fresh(made)
      ensures forall i :: 0 <= i < |groups.dicts| ==> groups.dicts[i].byKey in made
      ensures forall i :: 0 <= i < |groups.lists| ==> groups.lists[i].records in made
    {
      made := groups.Restore(g, s.groups);
    }

    /** The other stores are back with the containers made for them, and their tokens still hold. */
    ghost predicate OthersBack(made: set<object>, f: FlatToken, g: GroupToken, s: State)
      reads flat.evidence, flat.predictions, flat.worldModels, flat.contexts, groups.dicts, groups.lists
      reads flat.Objects(), groups.Objects(), f.Objects(), g.Objects()
    {
      && flat.Is(s.flat) && groups.Is(s.groups) && f.Holds(s.flat) && g.Holds(s.groups)
      && flat.Objects() <= made + flat.Stores()
      && (forall i :: 0 <= i < |groups.dicts| ==> groups.dicts[i].byKey in made)
      && (forall i :: 0 <= i < |groups.lists| ==> groups.lists[i].records in made)
    }

    method RestoreOthers(f: FlatToken, g: GroupToken, ghost s: State) returns (ghost made: set<object>)
      requires f.Holds(s.flat) && g.Holds(s.groups) && groups.Apart()
      requires |g.dicts| == |groups.dicts| && |g.lists| == |groups.lists|
      modifies Others()
      ensures OthersBack(made, f, g, s) && fresh(made)
    {
      ghost var first := RestoreFlat(f, g, s);
      ghost var second := RestoreGroups(f, g, s);
      made := first + second;
    }

    method RestoreOthersKeeping(ghost keep: () ~> bool, f: FlatToken, g: GroupToken, ghost s: State)
        returns (ghost made: set<object>)
      requires keep.requires() && keep() && f.Holds(s.flat) && g.Holds(s.groups) && groups.Apart()
      requires |g.dicts| == |groups.dicts| && |g.lists| == |groups.lists| && keep.reads() !! Others()
      modifies Others()
      ensures OthersBack(made, f, g, s) && fresh(made)
      ensures keep.requires() && keep()
    {
      made := RestoreOthers(f, g, s);
    }

    /** Restoring the other stores does not reach into the token of the nested ones. */
    method RestoreAround(ghost held: set<object>, f: FlatToken, g: GroupToken, n: NestedToken, ghost s: State)
        returns (ghost made: set<object>)
      requires f.Holds(s.flat) && g.Holds(s.groups) && n.Holds(s.nested) && groups.Apart()
      requires TokensIn(held, f, g, n) && held !! Others()
      modifies Others()
      ensures OthersBack(made, f, g, s) && fresh(made)
      ensures n.Holds(s.nested) && TokensIn(held, f, g, n)
    {
      ghost var keep := () reads n.Objects() => n.Holds(s.nested) && TokensIn(held, f, g, n);
      assert keep.reads() == n.Objects();
      made := RestoreOthersKeeping(keep, f, g, s);
      assert keep();
    }

    /** The containers the nested stores end up with are new, and those of the tokens are left alone. */
    method RestoreNested(ghost held: set<object>, f: FlatToken, g: GroupToken, n: NestedToken, ghost s: State)
        returns (ghost more: set<object>)
      requires n.Holds(s.nested) && TokensIn(held, f, g, n)
      requires nested.ledger !in held && nested.lineages !in held && nested.versions !in held
      modifies nested.ledger, nested.lineages, nested.versions
      ensures nested.Is(s.nested) && n.Holds(s.nested) && TokensIn(held, f, g, n)
      ensures fresh(more) && nested.Objects() <= more + {nested.ledger, nested.lineages, nested.versions}
    {
      more := nested.Restore(n, s.nested);
    }

    /** What `OthersBack` depends on. */
    ghost function OtherObjects(f: FlatToken, g: GroupToken): set<object>
      reads flat.evidence, flat.predictions, flat.worldModels, flat.contexts, groups.dicts, groups.lists
    {
      flat.Objects() + groups.Objects() + f.Objects() + g.Objects()
    }

    method RestoreNestedKeeping(ghost keep: () ~> bool, ghost held: set<object>, f: FlatToken, g: GroupToken,
                                n: NestedToken, ghost s: State)
        returns (ghost more: set<object>)
      requires keep.requires() && keep() && n.Holds(s.nested) && TokensIn(held, f, g, n)
      requires nested.ledger !in held && nested.lineages !in held && nested.versions !in held
      requires nested.ledger !in keep.reads() && nested.lineages !in keep.reads() && nested.versions !in keep.reads()
      modifies nested.ledger, nested.lineages, nested.versions
      ensures keep.requires() && keep()
      ensures nested.Is(s.nested) && n.Holds(s.nested) && TokensIn(held, f, g, n)
      ensures fresh(more) && nested.Objects() <= more + {nested.ledger, nested.lineages, nested.versions}
    {
      more := RestoreNested(held, f, g, n, s);
    }

    method RestoreNestedLast(ghost held: set<object>, ghost made: set<object>, f: FlatToken, g: GroupToken,
                             n: NestedToken, ghost s: State)
        returns (ghost more: set<object>)
      requires OthersBack(made, f, g, s) && n.Holds(s.nested) && TokensIn(held, f, g, n)
      requires nested.ledger !in held && nested.lineages !in held && nested.versions !in held
      modifies nested.ledger, nested.lineages, nested.versions
      ensures OthersBack(made, f, g, s) && nested.Is(s.nested)
      ensures n.Holds(s.nested) && TokensIn(held, f, g, n)
      ensures fresh(more) && nested.Objects() <= more + {nested.ledger, nested.lineages, nested.versions}
    {
      ghost var keep := () reads OtherObjects(f, g) => OthersBack(made, f, g, s);
      NotAmong(nested.ledger, f, g);
      NotAmong(nested.lineages, f, g);
      NotAmong(nested.versions, f, g);
      assert keep.reads() == OtherObjects(f, g);
      more := RestoreNestedKeeping(keep, held, f, g, n, s);
      assert keep();
    }

    /** The nested stores are of other classes. */
    lemma NotAmong(x: object, f: FlatToken, g: GroupToken)
      requires x is InMemoryRevisionLedgerStore || x is InMemoryHypothesisLineageStore
               || x is InMemoryStatementVersionStore
      ensures x !in OtherObjects(f, g)
    {
      assert x !in groups.Objects();
      assert x !in g.Objects();
    }

    /** No store, and no container a store currently uses, is held by the tokens. */
    ghost predicate Clear(held: set<object>)
      reads flat.evidence, flat.predictions, flat.worldModels, flat.contexts, groups.dicts, groups.lists
      reads nested.ledger, nested.lineages, nested.versions, nested.ledger.byScope, nested.lineages.byKey,
            nested.versions.byLineage
    {
      && flat.Objects() !! held && nested.Objects() !! held && groups.Stores() !! held
      && (forall i :: 0 <= i < |groups.dicts| ==> groups.dicts[i].byKey !in held)
      && (forall i :: 0 <= i < |groups.lists| ==> groups.lists[i].records !in held)
    }

    lemma ClearIs(held: set<object>)
      requires Clear(held)
      ensures Objects() !! held && held !! Stores() && held !! Others()
    {
    }

    method RestoreBoth(ghost held: set<object>, f: FlatToken, g: GroupToken, n: NestedToken, ghost s: State)
        returns (ghost made: set<object>, ghost more: set<object>)
      requires f.Holds(s.flat) && g.Holds(s.groups) && n.Holds(s.nested) && groups.Apart()
      requires TokensIn(held, f, g, n) && held !! Others()
      requires nested.ledger !in held && nested.lineages !in held && nested.versions !in held
      modifies Others(), nested.ledger, nested.lineages, nested.versions
      ensures OthersBack(made, f, g, s) && nested.Is(s.nested)
      ensures n.Holds(s.nested) && TokensIn(held, f, g, n)
      ensures fresh(made) && fresh(more) && nested.Objects() <= more + {nested.ledger, nested.lineages, nested.versions}
    {
      made := RestoreAround(held, f, g, n, s);
      more := RestoreNestedLast(held, made, f, g, n, s);
    }

    /** All the stores. */
    ghost function Stores(): set<object> {
      Others() + {nested.ledger, nested.lineages, nested.versions}
    }

    lemma BackIs(held: set<object>, made: set<object>, more: set<object>, f: FlatToken, g: GroupToken, s: State)
      requires OthersBack(made, f, g, s) && nested.Objects() <= more + {nested.ledger, nested.lineages, nested.versions}
      requires held !! made && held !! more && held !! Stores()
      ensures flat.Is(s.flat) && groups.Is(s.groups) && f.Holds(s.flat) && g.Holds(s.groups)
      ensures Objects() <= made + more + Stores() && Clear(held)
    {
    }

    /** Whatever was done to the stores and to every container they use, restoring the tokens brings back the
        state they were taken in and leaves them fit to be restored again. */
    method Restore(ghost held: set<object>, f: FlatToken, g: GroupToken, n: NestedToken, ghost s: State)
        returns (ghost made: set<object>, ghost more: set<object>)
      requires f.Holds(s.flat) && g.Holds(s.groups) && n.Holds(s.nested) && groups.Apart()
      requires TokensIn(held, f, g, n) && held !! Stores()
      modifies Stores()
      ensures flat.Is(s.flat) && groups.Is(s.groups) && nested.Is(s.nested)
      ensures f.Holds(s.flat) && g.Holds(s.groups) && n.Holds(s.nested)
      ensures TokensIn(held, f, g, n) && Clear(held)
      ensures fresh(made) && fresh(more) && Objects() <= made + more + Stores()
    {
      made, more := RestoreBoth(held, f, g, n, s);
      BackIs(held, made, more, f, g, s);
    }

    /** The tokens hold this state, in containers of their own. */
    ghost predicate Ready(held: set<object>, f: FlatToken, g: GroupToken, n: NestedToken, s: State)
      reads flat.evidence, flat.predictions, flat.worldModels, flat.contexts, groups.dicts, groups.lists
      reads nested.ledger, nested.lineages, nested.versions, nested.ledger.byScope, nested.lineages.byKey,
            nested.versions.byLineage
      reads f.Objects(), g.Objects(), n.ledger.byScope, n.lineages.byKey, n.versions.byLineage, n.Objects()
    {
      && f.Holds(s.flat) && g.Holds(s.groups) && n.Holds(s.nested)
      && TokensIn(held, f, g, n) && Clear(held)
    }

    lemma StoresAreOwned()
      ensures Stores() <= Objects()
    {
    }

    /** The same, with arbitrary writes to the stores and all their containers just before. */
    method Undo(ghost held: set<object>, f: FlatToken, g: GroupToken, n: NestedToken, ghost s: State)
        returns (ghost made: set<object>, ghost more: set<object>)
      requires Ready(held, f, g, n, s) && groups.Apart()
      modifies Objects()
      ensures Is(s) && Ready(held, f, g, n, s)
      ensures fresh(made) && fresh(more) && Objects() <= made + more + Stores()
    {
      ClearIs(held);
      Disturb(Objects(), held, f, g, n, s);
      made, more := Restore(held, f, g, n, s);
    }

    ghost predicate Is(s: State)
      reads flat.evidence, flat.predictions, flat.worldModels, flat.contexts, groups.dicts, groups.lists
      reads flat.Objects(), groups.Objects()
      reads nested.ledger, nested.lineages, nested.versions, nested.ledger.byScope, nested.lineages.byKey,
            nested.versions.byLineage, nested.Objects()
    {
      flat.Is(s.flat) && groups.Is(s.groups) && nested.Is(s.nested)
    }

    method SnapshotReady(ghost s: State) returns (f: FlatToken, g: GroupToken, n: NestedToken, ghost held: set<object>)
      requires Is(s)
      ensures Ready(held, f, g, n, s) && Objects() == old(Objects())
    {
      ghost var owned := Objects();
      f, g, n, held := SnapshotFor(owned, s);
      assert Objects() == owned;
      HeldApart(held);
    }

    lemma HeldApart(held: set<object>)
      requires Objects() !! held
      ensures Clear(held)
    {
    }

    method Rollback(ghost s: State)
      requires Is(s) && groups.Apart()
      modifies Objects()
      ensures Is(s)
    {
      var f, g, n, held := SnapshotReady(s);
      ghost var _, _ := Undo(held, f, g, n, s);
    }

    /** The token is still good after it was restored, so it can be restored again. */
    method UndoTwice(ghost held: set<object>, f: FlatToken, g: GroupToken, n: NestedToken, ghost s: State)
      requires Ready(held, f, g, n, s) && groups.Apart()
      modifies Objects()
      ensures Is(s)
    {
      StoresAreOwned();
      ghost var _, _ := Undo(held, f, g, n, s);
      ghost var _, _ := Undo(held, f, g, n, s);
    }

    method RollbackTwice(ghost s: State)
      requires Is(s) && groups.Apart()
      modifies Objects()
      ensures Is(s)
    {
      var f, g, n, held := SnapshotReady(s);
      UndoTwice(held, f, g, n, s);
    }

    ghost predicate Valid()
      reads flat.evidence, flat.predictions, flat.worldModels, flat.contexts, groups.dicts, groups.lists
      reads flat.Objects(), groups.Objects()
      reads nested.ledger, nested.lineages, nested.versions, nested.ledger.byScope, nested.lineages.byKey,
            nested.versions.byLineage, nested.Objects()
    {
      flat.Valid() && groups.Valid() && nested.ledger.Valid() && nested.lineages.Valid() && nested.versions.Valid()
    }

    /** Whether every store can answer queries is a matter of the state alone. */
    lemma ValidIs(s: State)
      requires Is(s)
      ensures Valid() <==> s.flat.Valid() && groups.KeyedAs(s.groups)
    {
      flat.ValidIs(s.flat);
      groups.ValidIs(s.groups);
    }
  }

  /** One snapshot, arbitrary writes to every store and to every container any of them can reach, and a
      restore: every store is in the state of the snapshot, and its queries can be asked again. */
  method RollbackAll(store: InMemoryReasoningStore, ghost s: State)
    requires store.Is(s) && store.Valid() && store.groups.Apart()
    modifies store.Objects()
    ensures store.Is(s) && store.Valid()
  {
    store.ValidIs(s);
    store.Rollback(s);
    store.ValidIs(s);
  }

  /** The same token serves again after further arbitrary writes to whatever the first restore put in place. */
  method RollbackAllTwice(store: InMemoryReasoningStore, ghost s: State)
    requires store.Is(s) && store.Valid() && store.groups.Apart()
    modifies store.Objects()
    ensures store.Is(s) && store.Valid()
  {
    store.ValidIs(s);
    store.RollbackTwice(s);
    store.ValidIs(s);
  }
}
