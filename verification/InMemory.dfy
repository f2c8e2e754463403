/** The in-memory stores: Python objects holding dicts and lists that are updated in place,
    with snapshot tokens that must not share any of those containers. */
module InMemory {
  import opened Domain
  import opened Tables
  import opened Containers
  import opened Keyed
  import opened Ledger
  import opened Ports

  type Records = Dict<Key, Value>

  /** The last record under each source reference, as the forward index keeps it. */
  function RefIndex(s: seq<Value>): map<Value, Value> {
    if s == [] then map[] else
    var index, last := RefIndex(s[..|s| - 1]), s[|s| - 1];
    if Get(last, SourceRef) == PyNone then index else index[Get(last, SourceRef) := Get(last, Id)]
  }

  lemma RefIndexAppend(s: seq<Value>, v: Value)
    ensures RefIndex(s + [v]) ==
            if Get(v, SourceRef) == PyNone then RefIndex(s) else RefIndex(s)[Get(v, SourceRef) := Get(v, Id)]
  {
    assert (s + [v])[..|s|] == s;
  }

  ghost predicate Carried(s: seq<Value>, ref: Value) { exists i :: 0 <= i < |s| && Get(s[i], SourceRef) == ref }

  /** The i-th record is the last to carry the reference. */
  ghost predicate LastCarries(s: seq<Value>, ref: Value, i: int) {
    && 0 <= i < |s| && Get(s[i], SourceRef) == ref
    && forall j :: i < j < |s| ==> Get(s[j], SourceRef) != ref
  }

  lemma CarriedAppend(s: seq<Value>, v: Value, ref: Value)
    ensures Carried(s + [v], ref) <==> Carried(s, ref) || Get(v, SourceRef) == ref
  {
    var t := s + [v];
    assert t[|s|] == v && forall i :: 0 <= i < |s| ==> t[i] == s[i];
  }

  lemma LastCarriesAppend(s: seq<Value>, v: Value, ref: Value, i: int)
    requires LastCarries(s + [v], ref, i)
    ensures if Get(v, SourceRef) == ref then i == |s| else LastCarries(s, ref, i)
  {
    var t := s + [v];
    assert t[|s|] == v && forall j :: 0 <= j < |s| ==> t[j] == s[j];
  }

  /** The index knows a reference exactly when some record carries it, and gives the last one's id. */
  lemma {:induction false} RefIndexIs(s: seq<Value>, ref: Value)
    requires ref != PyNone
    ensures ref in RefIndex(s) <==> Carried(s, ref)
    ensures forall i :: LastCarries(s, ref, i) ==> ref in RefIndex(s) && RefIndex(s)[ref] == Get(s[i], Id)
  {
    if s != [] {
      var init, last := s[..|s| - 1], s[|s| - 1];
      assert s == init + [last];
      RefIndexIs(init, ref);
      RefIndexAppend(init, last);
      CarriedAppend(init, last, ref);
      forall i | LastCarries(s, ref, i) ensures ref in RefIndex(s) && RefIndex(s)[ref] == Get(s[i], Id) {
        LastCarriesAppend(init, last, ref, i);
      }
    }
  }

  /** Every record that carries a reference is found again through it. */
  predicate BothWays(s: seq<Value>) {
    forall i :: 0 <= i < |s| && Get(s[i], SourceRef) != PyNone ==>
      Get(s[i], SourceRef) in RefIndex(s) && RefIndex(s)[Get(s[i], SourceRef)] == Get(s[i], Id)
  }

  /** An accepted record keeps the mapping good in both directions exactly when its reference is new; a
      reused one is silently taken over. */
  lemma AddKeepsBothWays(s: seq<Value>, v: Value)
    requires BothWays(s) && forall i :: 0 <= i < |s| ==> Get(s[i], Id) != Get(v, Id)
    ensures BothWays(s + [v]) <==> Get(v, SourceRef) == PyNone || Get(v, SourceRef) !in RefIndex(s)
  {
    RefIndexAppend(s, v);
    var ref := Get(v, SourceRef);
    if ref != PyNone && ref in RefIndex(s) {
      RefIndexIs(s, ref);
      var i :| 0 <= i < |s| && Get(s[i], SourceRef) == ref;
      assert (s + [v])[i] == s[i];
    } else {
      forall i | 0 <= i < |s + [v]| && Get((s + [v])[i], SourceRef) != PyNone
        ensures var r := Get((s + [v])[i], SourceRef);
                r in RefIndex(s + [v]) && RefIndex(s + [v])[r] == Get((s + [v])[i], Id)
      {
        assert i < |s| ==> (s + [v])[i] == s[i];
      }
    }
  }

  /** A new record under a new id, in the dict and in the index. */
  lemma AddedEvidence(d: Records, record: Value)
    requires KeyedBy(d, {CId}) && KeyOf({CId}, record) !in d.at
    ensures var after := d.Set(KeyOf({CId}, record), record);
            && KeyedBy(after, {CId}) && after.Values() == d.Values() + [record]
            && RefIndex(after.Values()) ==
                 if Get(record, SourceRef) == PyNone then RefIndex(d.Values())
                 else RefIndex(d.Values())[Get(record, SourceRef) := Get(record, Id)]
  {
    SetKeepsKeys(d, {CId}, record);
    RefIndexAppend(d.Values(), record);
  }

  /** The listing loop every store runs over its records. */
  method Filter(s: seq<Value>, cond: Cond) returns (r: seq<Value>)
    ensures r == Select(s, cond)
  {
    r := [];
    for i := 0 to |s|
      invariant r == Select(s[..i], cond)
    {
      SelectPrefix(s, cond, i);
      if Matches(s[i], cond) {
        r := r + [s[i]];
      }
    }
    assert s[..|s|] == s;
  }

  /** A snapshot token owns its containers. */
  datatype EvidenceToken = EvidenceToken(byId: Cell<Records>, byRef: Cell<map<Value, Value>>)

  class InMemoryEvidenceStore {
    var byId: Cell<Records>
    var byRef: Cell<map<Value, Value>>

    ghost predicate Valid()
      reads this, byId, byRef
    {
      KeyedBy(byId.v, {CId}) && byRef.v == RefIndex(byId.v.Values())
    }

    ghost function Contents(): seq<Value>
      requires Valid()
      reads this, byId, byRef
    {
      byId.v.Values()
    }

    constructor ()
      ensures Valid() && Contents() == [] && fresh(byId) && fresh(byRef)
    {
      byId := new Cell<Records>(EmptyDict());
      byRef := new Cell<map<Value, Value>>(map[]);
    }

    method Add(record: Value) returns (ok: bool)
      requires Valid()
      modifies byId, byRef
      ensures Valid()
      ensures ok <==> Write(InsertOnly({CId}), old(Contents()), record).Some?
      ensures Contents() == if ok then old(Contents()) + [record] else old(Contents())
      ensures Takes(TEvidence, record, old(Contents()), Contents(), ok)
    {
      TakenIsRefused(byId.v, {CId}, record);
      TakesWrite(TEvidence, record, Contents());
      if KeyOf({CId}, record) in byId.v.at {
        return false;
      }
      Insert(record);
      ok := true;
    }

    method Insert(record: Value)
      requires Valid() && KeyOf({CId}, record) !in byId.v.at
      modifies byId, byRef
      ensures Valid() && Contents() == old(Contents()) + [record]
    {
      AddedEvidence(byId.v, record);
      byId.v := byId.v.Set(KeyOf({CId}, record), record);
      if Get(record, SourceRef) != PyNone {
        byRef.v := byRef.v[Get(record, SourceRef) := Get(record, Id)];
      }
    }

    method GetById(id: string) returns (r: Option<Value>)
      requires Valid()
      ensures r == First(Select(Contents(), map[CId := id]))
      ensures Gives(TEvidence, Contents(), GetOne(TEvidence, map[CId := id]), One(r))
    {
      var key := map[CId := Str(id)];
      LookupIsSelect(byId.v, {CId}, map[CId := id], key);
      r := if key in byId.v.at then Some(byId.v.at[key]) else None;
    }

    method ListForScope(s: Scope) returns (r: seq<Value>)
      requires Valid()
      ensures r == Select(Contents(), ScopeCond(s))
      ensures Gives(TEvidence, Contents(), ListAll(TEvidence, ScopeCond(s)), Many(r))
    {
      r := Filter(byId.v.Values(), ScopeCond(s));
    }

    method IdForRef(ref: Value) returns (r: Option<Value>)
      requires Valid()
      ensures r == if ref in RefIndex(Contents()) then Some(RefIndex(Contents())[ref]) else None
    {
      r := if ref in byRef.v then Some(byRef.v[ref]) else None;
    }

    method RefForId(id: string) returns (r: Option<Value>)
      requires Valid()
      ensures var found := Select(Contents(), map[CId := id]);
              r == if found == [] || Get(found[0], SourceRef) == PyNone then None else Some(Get(found[0], SourceRef))
    {
      var record := GetById(id);
      r := if record.None? || Get(record.value, SourceRef) == PyNone then None else Some(Get(record.value, SourceRef));
    }

    method Snapshot() returns (token: EvidenceToken)
      ensures fresh(token.byId) && fresh(token.byRef) && token.byId.v == byId.v && token.byRef.v == byRef.v
    {
      var ids := new Cell<Records>(byId.v);
      var refs := new Cell<map<Value, Value>>(byRef.v);
      token := EvidenceToken(ids, refs);
    }

    method Restore(token: EvidenceToken)
      modifies this
      ensures byId.v == token.byId.v && byRef.v == token.byRef.v && fresh(byId) && fresh(byRef)
    {
      byId := new Cell<Records>(token.byId.v);
      byRef := new Cell<map<Value, Value>>(token.byRef.v);
    }
  }

  datatype DictToken = DictToken(byKey: Cell<Records>)

  /** Inference, anomaly, provenance and identity-adjudication stores: one dict each, which refuses a second
      record under a key (`insertOnly`) or replaces it. */
  class InMemoryDictStore {
    const cols: set<Column>
    const insertOnly: bool
    var byKey: Cell<Records>

    ghost predicate Valid()
      reads this, byKey
    {
      KeyedBy(byKey.v, cols)
    }

    ghost function Contents(): seq<Value>
      requires Valid()
      reads this, byKey
    {
      byKey.v.Values()
    }

    /** The store is the one of this table. */
    ghost predicate Serves(t: Table) {
      !t.TLedger? && MemoryKind(t) == if insertOnly then InsertOnly(cols) else Upsert(cols)
    }

    constructor ForTable(t: Table)
      requires t.TInference? || t.TAnomalies? || t.TProvenance?
      ensures Valid() && Contents() == [] && fresh(byKey) && Serves(t)
    {
      cols := {CId};
      insertOnly := t.TInference?;
      byKey := new Cell<Records>(EmptyDict());
    }

    constructor (cols: set<Column>, insertOnly: bool)
      ensures Valid() && Contents() == [] && fresh(byKey)
      ensures this.cols == cols && this.insertOnly == insertOnly
    {
      this.cols := cols;
      this.insertOnly := insertOnly;
      byKey := new Cell<Records>(EmptyDict());
    }

    method Add(record: Value) returns (ok: bool)
      requires Valid()
      modifies byKey
      ensures Valid()
      ensures var w := Write(if insertOnly then InsertOnly(cols) else Upsert(cols), old(Contents()), record);
              ok == w.Some? && Contents() == if ok then w.value else old(Contents())
      ensures forall t :: Serves(t) ==> Takes(t, record, old(Contents()), Contents(), ok)
    {
      var key := KeyOf(cols, record);
      TakenIsRefused(byKey.v, cols, record);
      if insertOnly && key in byKey.v.at {
        return false;
      }
      SetKeepsKeys(byKey.v, cols, record);
      SetIsPut(byKey.v, cols, record);
      byKey.v := byKey.v.Set(key, record);
      ok := true;
    }

    method Lookup(cond: Cond) returns (r: Option<Value>)
      requires Valid() && cond.Keys == cols
      ensures r == First(Select(Contents(), cond))
      ensures forall t :: Gives(t, Contents(), GetOne(t, cond), One(r))
    {
      var key := map c | c in cond :: Str(cond[c]);
      LookupIsSelect(byKey.v, cols, cond, key);
      r := if key in byKey.v.at then Some(byKey.v.at[key]) else None;
    }

    method ListForScope(s: Scope) returns (r: seq<Value>)
      requires Valid()
      ensures r == Select(Contents(), ScopeCond(s))
      ensures forall t :: Gives(t, Contents(), ListAll(t, ScopeCond(s)), Many(r))
    {
      r := Filter(byKey.v.Values(), ScopeCond(s));
    }

    method Snapshot() returns (token: DictToken)
      ensures fresh(token.byKey) && token.byKey.v == byKey.v
    {
      var copy := new Cell<Records>(byKey.v);
      token := DictToken(copy);
    }

    method Restore(token: DictToken)
      modifies this
      ensures byKey.v == token.byKey.v && fresh(byKey)
    {
      byKey := new Cell<Records>(token.byKey.v);
    }
  }

  datatype ListToken = ListToken(records: Cell<seq<Value>>)

  /** Hypothesis, inquiry, recognition and dependency stores: one list of every record added. */
  class InMemoryListStore {
    var records: Cell<seq<Value>>

    constructor ()
      ensures records.v == [] && fresh(records)
    {
      records := new Cell<seq<Value>>([]);
    }

    method Add(record: Value)
      modifies records
      ensures records.v == old(records.v) + [record]
      ensures forall t: Table :: MemoryKind(t).Append? ==> Takes(t, record, old(records.v), records.v, true)
    {
      records.v := records.v + [record];
    }

    /** The first record satisfying the condition (`get_record`). */
    method GetFirst(cond: Cond) returns (r: Option<Value>)
      ensures r == First(Select(records.v, cond))
      ensures forall t :: Gives(t, records.v, GetOne(t, cond), One(r))
    {
      for i := 0 to |records.v|
        invariant Select(records.v[..i], cond) == []
      {
        SelectPrefix(records.v, cond, i);
        if Matches(records.v[i], cond) {
          SelectStartsWith(records.v, cond, i + 1);
          return Some(records.v[i]);
        }
      }
      assert records.v[..|records.v|] == records.v;
      r := None;
    }

    method Latest(cond: Cond) returns (r: Option<Value>)
      ensures r == Last(Select(records.v, cond))
      ensures forall t :: Gives(t, records.v, Newest(t, cond), One(r))
    {
      r := None;
      for i := 0 to |records.v|
        invariant r == Last(Select(records.v[..i], cond))
      {
        LastPrefix(records.v, cond, i);
        if Matches(records.v[i], cond) {
          r := Some(records.v[i]);
        }
      }
      assert records.v[..|records.v|] == records.v;
    }

    method All(cond: Cond) returns (r: seq<Value>)
      ensures r == Select(records.v, cond)
      ensures forall t :: Gives(t, records.v, ListAll(t, cond), Many(r))
    {
      r := Filter(records.v, cond);
    }

    /** `list_for_subject` of hypotheses and inquiries: the latest record per lineage. */
    method ListLatest(s: Scope, c: Column) returns (r: seq<Value>)
      ensures r == LatestPer(Select(records.v, ScopeCond(s)), FieldOf(c))
      ensures forall t :: Gives(t, records.v, Query.ListLatest(t, s, c), Many(r))
    {
      r := LatestOf(s, FieldOf(c));
    }

    method LatestOf(s: Scope, f: Field) returns (r: seq<Value>)
      ensures r == LatestPer(Select(records.v, ScopeCond(s)), f)
    {
      var latest: map<Value, Value> := map[];
      var order: seq<Value> := [];
      ghost var seen: seq<Value> := [];
      for i := 0 to |records.v|
        invariant seen == Select(records.v[..i], ScopeCond(s))
        invariant order == FirstSeen(seen, f) && LatestIn(seen, f, order, latest)
      {
        var h := records.v[i];
        SelectPrefix(records.v, ScopeCond(s), i);
        if Matches(h, ScopeCond(s)) {
          NoteLatest(seen, f, h, order, latest);
          if Get(h, f) !in latest {
            order := order + [Get(h, f)];
          }
          latest := latest[Get(h, f) := h];
          seen := seen + [h];
        }
      }
      assert records.v[..|records.v|] == records.v;
      r := Spelt(order, latest);
      SpeltIsLatest(seen, f, order, latest, r);
    }

    method Snapshot() returns (token: ListToken)
      ensures fresh(token.records) && token.records.v == records.v
    {
      var copy := new Cell<seq<Value>>(records.v);
      token := ListToken(copy);
    }

    method Restore(token: ListToken)
      modifies this
      ensures fresh(records) && records.v == token.records.v
    {
      records := new Cell<seq<Value>>(token.records.v);
    }
  }

  datatype PredictionToken = PredictionToken(byId: Cell<map<Key, Value>>, order: Cell<seq<Key>>)

  /** A dict and a separate order list; re-adding an id replaces the prediction in its old place. */
  class InMemoryPredictionRepository {
    var byId: Cell<map<Key, Value>>
    var order: Cell<seq<Key>>

    function AsDict(): Records
      reads this, byId, order
    {
      Dict(order.v, byId.v)
    }

    ghost predicate Valid()
      reads this, byId, order
    {
      KeyedBy(AsDict(), {CId})
    }

    ghost function Contents(): seq<Value>
      requires Valid()
      reads this, byId, order
    {
      AsDict().Values()
    }

    constructor ()
      ensures Valid() && Contents() == [] && fresh(byId) && fresh(order)
    {
      byId := new Cell<map<Key, Value>>(map[]);
      order := new Cell<seq<Key>>([]);
    }

    method Add(prediction: Value)
      requires Valid()
      modifies byId, order
      ensures Valid()
      ensures Contents() == Put(old(Contents()), {CId}, prediction)
      ensures Takes(TPredictions, prediction, old(Contents()), Contents(), true)
    {
      TakesWrite(TPredictions, prediction, Contents());
      var key := KeyOf({CId}, prediction);
      SetKeepsKeys(AsDict(), {CId}, prediction);
      SetIsPut(AsDict(), {CId}, prediction);
      if key !in byId.v {
        order.v := order.v + [key];
      }
      byId.v := byId.v[key := prediction];
    }

    method GetById(id: string) returns (r: Option<Value>)
      requires Valid()
      ensures r == First(Select(Contents(), map[CId := id]))
      ensures Gives(TPredictions, Contents(), GetOne(TPredictions, map[CId := id]), One(r))
    {
      var key := map[CId := Str(id)];
      LookupIsSelect(AsDict(), {CId}, map[CId := id], key);
      r := if key in byId.v then Some(byId.v[key]) else None;
    }

    method ListForScope(s: Scope) returns (r: seq<Value>)
      requires Valid()
      ensures r == Select(Contents(), ScopeCond(s))
      ensures Gives(TPredictions, Contents(), ListAll(TPredictions, ScopeCond(s)), Many(r))
    {
      r := Filter(AsDict().Values(), ScopeCond(s));
    }

    method Snapshot() returns (token: PredictionToken)
      ensures fresh(token.byId) && fresh(token.order) && token.byId.v == byId.v && token.order.v == order.v
    {
      var ids := new Cell<map<Key, Value>>(byId.v);
      var ord := new Cell<seq<Key>>(order.v);
      token := PredictionToken(ids, ord);
    }

    method Restore(token: PredictionToken)
      modifies this
      ensures byId.v == token.byId.v && order.v == token.order.v && fresh(byId) && fresh(order)
    {
      byId := new Cell<map<Key, Value>>(token.byId.v);
      order := new Cell<seq<Key>>(token.order.v);
    }
  }

  datatype ModelToken = ModelToken(versions: Cell<Records>, current: Cell<Records>)

  /** World-model versions, never overwritten, and one current pointer per scope. */
  class InMemoryWorldModelRepository {
    var versions: Cell<Records>
    var current: Cell<Records>

    ghost predicate Valid()
      reads this, versions, current
    {
      && versions != current
      && KeyedBy(versions.v, {CSpace, CSubject, CVersion})
      && KeyedBy(current.v, {CSpace, CSubject})
    }

    ghost function Versions(): seq<Value>
      requires Valid()
      reads this, versions, current
    {
      versions.v.Values()
    }

    ghost function Pointers(): seq<Value>
      requires Valid()
      reads this, versions, current
    {
      current.v.Values()
    }

    constructor ()
      ensures Valid() && Versions() == [] && Pointers() == [] && fresh(versions) && fresh(current)
    {
      versions := new Cell<Records>(EmptyDict());
      current := new Cell<Records>(EmptyDict());
    }

    method AppendVersion(model: Value) returns (ok: bool)
      requires Valid()
      modifies versions
      ensures Valid() && Pointers() == old(Pointers())
      ensures ok <==> Write(InsertOnly({CSpace, CSubject, CVersion}), old(Versions()), model).Some?
      ensures Versions() == if ok then old(Versions()) + [model] else old(Versions())
      ensures Takes(TWorldModels, model, old(Versions()), Versions(), ok)
    {
      ghost var before := Versions();
      ok := !Taken(model);
      if ok {
        Insert(model);
      }
      Took(TWorldModels, model, before, Versions(), ok);
    }

    predicate Taken(model: Value)
      requires Valid()
      reads this, versions, current
      ensures Taken(model) <==> Write(InsertOnly({CSpace, CSubject, CVersion}), Versions(), model) == None
    {
      TakenIsRefused(versions.v, {CSpace, CSubject, CVersion}, model);
      KeyOf({CSpace, CSubject, CVersion}, model) in versions.v.at
    }

    method Insert(model: Value)
      requires Valid() && !Taken(model)
      modifies versions
      ensures Valid() && Pointers() == old(Pointers()) && Versions() == old(Versions()) + [model]
    {
      SetKeepsKeys(versions.v, {CSpace, CSubject, CVersion}, model);
      versions.v := versions.v.Set(KeyOf({CSpace, CSubject, CVersion}, model), model);
    }

    method SetCurrentPointer(pointer: Value)
      requires Valid()
      modifies current
      ensures Valid() && Versions() == old(Versions())
      ensures Pointers() == Put(old(Pointers()), {CSpace, CSubject}, pointer)
      ensures Takes(TCurrentPointer, pointer, old(Pointers()), Pointers(), true)
    {
      ghost var before := Pointers();
      Point(pointer);
      Took(TCurrentPointer, pointer, before, Pointers(), true);
    }

    method Point(pointer: Value)
      requires Valid()
      modifies current
      ensures Valid() && Versions() == old(Versions())
      ensures Pointers() == Put(old(Pointers()), {CSpace, CSubject}, pointer)
    {
      SetKeepsKeys(current.v, {CSpace, CSubject}, pointer);
      SetIsPut(current.v, {CSpace, CSubject}, pointer);
      current.v := current.v.Set(KeyOf({CSpace, CSubject}, pointer), pointer);
    }

    method GetVersion(s: Scope, version: string) returns (r: Option<Value>)
      requires Valid()
      ensures r == First(Select(Versions(), ScopeCond(s)[CVersion := version]))
      ensures Gives(TWorldModels, Versions(), GetOne(TWorldModels, ScopeCond(s)[CVersion := version]), One(r))
    {
      var key := map[CSpace := Str(s.space), CSubject := Str(s.subject), CVersion := Str(version)];
      LookupIsSelect(versions.v, {CSpace, CSubject, CVersion}, ScopeCond(s)[CVersion := version], key);
      r := if key in versions.v.at then Some(versions.v.at[key]) else None;
    }

    method GetCurrentPointer(s: Scope) returns (r: Option<Value>)
      requires Valid()
      ensures r == First(Select(Pointers(), ScopeCond(s)))
      ensures Gives(TCurrentPointer, Pointers(), GetOne(TCurrentPointer, ScopeCond(s)), One(r))
    {
      var key := map[CSpace := Str(s.space), CSubject := Str(s.subject)];
      LookupIsSelect(current.v, {CSpace, CSubject}, ScopeCond(s), key);
      r := if key in current.v.at then Some(current.v.at[key]) else None;
    }

    /** Through the pointer to the version it names. */
    method GetCurrentModel(s: Scope) returns (r: Option<Value>)
      requires Valid()
      ensures forall m: Memory :: Stored(m, TWorldModels, Versions()) && Stored(m, TCurrentPointer, Pointers()) ==>
                MemoryAnswer(m, CurrentModel(s)) == One(r)
    {
      var pointer := GetCurrentPointer(s);
      if pointer.None? {
        return None;
      }
      var version := Get(pointer.value, ModelVersionId);
      var key := map[CSpace := Str(s.space), CSubject := Str(s.subject), CVersion := version];
      VersionLookup(versions.v, s, version);
      r := if key in versions.v.at then Some(versions.v.at[key]) else None;
      ThroughPointer(Versions(), Pointers(), s, pointer.value, r);
    }

    method Snapshot() returns (token: ModelToken)
      ensures fresh(token.versions) && fresh(token.current) && token.versions != token.current
      ensures token.versions.v == versions.v && token.current.v == current.v
    {
      var vs := new Cell<Records>(versions.v);
      var cs := new Cell<Records>(current.v);
      token := ModelToken(vs, cs);
    }

    method Restore(token: ModelToken)
      modifies this
      ensures fresh(versions) && fresh(current) && versions != current
      ensures versions.v == token.versions.v && current.v == token.current.v
    {
      versions := new Cell<Records>(token.versions.v);
      current := new Cell<Records>(token.current.v);
    }
  }

  lemma ThroughPointer(vs: seq<Value>, ps: seq<Value>, s: Scope, pointer: Value, r: Option<Value>)
    requires First(Select(ps, ScopeCond(s))) == Some(pointer)
    requires r == First(Group(Select(vs, ScopeCond(s)), ModelVersionId, Get(pointer, ModelVersionId)))
    ensures forall m: Memory :: Stored(m, TWorldModels, vs) && Stored(m, TCurrentPointer, ps) ==>
              MemoryAnswer(m, CurrentModel(s)) == One(r)
  {
  }

  lemma VersionMatches(v: Value, s: Scope, version: Value)
    ensures KeyOf({CSpace, CSubject, CVersion}, v) ==
              map[CSpace := Str(s.space), CSubject := Str(s.subject), CVersion := version]
            <==> Matches(v, ScopeCond(s)) && Get(v, ModelVersionId) == version
  {
    var key := map[CSpace := Str(s.space), CSubject := Str(s.subject), CVersion := version];
    var k := KeyOf({CSpace, CSubject, CVersion}, v);
    assert k[CSpace] == Get(v, FieldOf(CSpace)) && k[CSubject] == Get(v, FieldOf(CSubject))
           && k[CVersion] == Get(v, FieldOf(CVersion));
    if Matches(v, ScopeCond(s)) && Get(v, ModelVersionId) == version {
      assert Get(v, FieldOf(CSpace)) == Str(ScopeCond(s)[CSpace])
             && Get(v, FieldOf(CSubject)) == Str(ScopeCond(s)[CSubject]);
      assert k == key;
    }
  }

  lemma GroupStep(s: seq<Value>, cond: Cond, f: Field, key: Value)
    requires s != []
    ensures var last := s[|s| - 1];
            Group(Select(s, cond), f, key) == Group(Select(s[..|s| - 1], cond), f, key)
                                            + if Matches(last, cond) && Get(last, f) == key then [last] else []
  {
    if Matches(s[|s| - 1], cond) {
      GroupAppend(Select(s[..|s| - 1], cond), f, key, s[|s| - 1]);
    } else {
      assert Select(s, cond) == Select(s[..|s| - 1], cond);
    }
  }

  lemma {:induction false} GroupNone(s: seq<Value>, cond: Cond, f: Field, key: Value)
    requires forall i :: 0 <= i < |s| ==> !(Matches(s[i], cond) && Get(s[i], f) == key)
    ensures Group(Select(s, cond), f, key) == []
  {
    if s != [] {
      GroupNone(s[..|s| - 1], cond, f, key);
      GroupStep(s, cond, f, key);
    }
  }

  lemma {:induction false} GroupOne(s: seq<Value>, cond: Cond, f: Field, key: Value, i: nat)
    requires i < |s| && Matches(s[i], cond) && Get(s[i], f) == key
    requires forall j :: 0 <= j < |s| && j != i ==> !(Matches(s[j], cond) && Get(s[j], f) == key)
    ensures Group(Select(s, cond), f, key) == [s[i]]
  {
    if i == |s| - 1 {
      GroupNone(s[..|s| - 1], cond, f, key);
    } else {
      GroupOne(s[..|s| - 1], cond, f, key, i);
    }
    GroupStep(s, cond, f, key);
  }

  /** The version dict looked up by scope and whatever value identifies the version. */
  lemma VersionLookup(d: Records, s: Scope, version: Value)
    requires KeyedBy(d, {CSpace, CSubject, CVersion})
    ensures var key := map[CSpace := Str(s.space), CSubject := Str(s.subject), CVersion := version];
            Group(Select(d.Values(), ScopeCond(s)), ModelVersionId, version) == if key in d.at then [d.at[key]] else []
  {
    var key := map[CSpace := Str(s.space), CSubject := Str(s.subject), CVersion := version];
    var vs := d.Values();
    forall i | 0 <= i < |vs|
      ensures Matches(vs[i], ScopeCond(s)) && Get(vs[i], ModelVersionId) == version <==> d.order[i] == key
    {
      VersionMatches(vs[i], s, version);
    }
    if key in d.at {
      var i :| 0 <= i < |d.order| && d.order[i] == key;
      GroupOne(vs, ScopeCond(s), ModelVersionId, version, i);
    } else {
      GroupNone(vs, ScopeCond(s), ModelVersionId, version);
    }
  }

  datatype LedgerToken = LedgerToken(byScope: DictOfLists<Scope, Value>) {
    ghost predicate Holds(books: Books)
      reads byScope, byScope.Repr
    {
      byScope.Valid() && byScope.Contents() == books && BooksOk(books)
    }
  }

  /** The ledger: a dict of lists, whose inner lists are appended to in place. */
  class InMemoryRevisionLedgerStore {
    var byScope: DictOfLists<Scope, Value>

    ghost predicate Valid()
      reads this, byScope, byScope.Repr
    {
      byScope.Valid() && this !in byScope.Repr && BooksOk(byScope.Contents())
    }

    ghost function Contents(): Books
      requires Valid()
      reads this, byScope, byScope.Repr
    {
      byScope.Contents()
    }

    constructor ()
      ensures Valid() && Contents() == map[] && fresh(byScope.Repr)
    {
      byScope := new DictOfLists<Scope, Value>();
    }

    /** Returns the entry written, or nothing when the event is not committed. */
    method AppendEvent(event: Value) returns (entry: Option<Value>)
      requires Valid() && HasScope(event)
      modifies byScope.Repr
      ensures Valid() && fresh(byScope.Repr - old(byScope.Repr))
      ensures Contents() == Appended(old(Contents()), event)
      ensures entry == if !Committed(event) then None
                       else Some(MakeEntry(|Lookup(old(Contents()), ScopeOf(event))|, event))
      ensures Logs(event, old(Contents()), Contents(), entry.Some?)
    {
      if !Committed(event) {
        return None;
      }
      AppendAt(Contents(), event, ScopeOf(event));
      var entries := byScope.Read(ScopeOf(event));
      var e := MakeEntry(|entries|, event);
      byScope.Append(ScopeOf(event), e);
      entry := Some(e);
    }

    method Read(s: Scope) returns (r: seq<Value>)
      requires Valid()
      ensures r == Lookup(Contents(), s) && InOrder(s, r)
      ensures Reads(Contents(), ReadLedger(s), Many(r))
    {
      r := byScope.Read(s);
    }

    method ReadSince(s: Scope, after: int) returns (r: seq<Value>)
      requires Valid()
      ensures r == Since(Lookup(Contents(), s), after)
      ensures Reads(Contents(), Query.ReadSince(s, after), Many(r))
    {
      var entries := byScope.Read(s);
      r := [];
      for i := 0 to |entries|
        invariant r == Since(entries[..i], after)
      {
        assert entries[..i + 1][..i] == entries[..i];
        if NumberOf(entries[i]) > after {
          r := r + [entries[i]];
        }
      }
      assert entries[..|entries|] == entries;
    }

    method Snapshot() returns (token: LedgerToken)
      requires Valid()
      ensures fresh(token.byScope.Repr) && token.Holds(Contents())
    {
      var copy := byScope.Copy();
      token := LedgerToken(copy);
    }

    method Restore(token: LedgerToken, ghost books: Books)
      requires token.Holds(books) && this !in token.byScope.Repr
      modifies this
      ensures Valid() && Contents() == books && fresh(byScope.Repr)
    {
      byScope := token.byScope.Copy();
    }
  }

  lemma SelectPrefix(s: seq<Value>, cond: Cond, i: nat)
    requires i < |s|
    ensures Select(s[..i + 1], cond) == Select(s[..i], cond) + if Matches(s[i], cond) then [s[i]] else []
  {
    assert s[..i + 1][..i] == s[..i];
  }

  lemma LastPrefix(s: seq<Value>, cond: Cond, i: nat)
    requires i < |s|
    ensures Last(Select(s[..i + 1], cond)) == if Matches(s[i], cond) then Some(s[i]) else Last(Select(s[..i], cond))
  {
    SelectPrefix(s, cond, i);
  }

  lemma {:induction false} SelectStartsWith(s: seq<Value>, cond: Cond, i: nat)
    requires i <= |s|
    ensures Select(s[..i], cond) <= Select(s, cond)
    decreases |s| - i
  {
    if i == |s| {
      assert s[..i] == s;
    } else {
      SelectPrefix(s, cond, i);
      SelectStartsWith(s, cond, i + 1);
    }
  }

  /** The loop's two locals after reading `s`: every key in first-seen order, its last record. */
  ghost predicate LatestIn(s: seq<Value>, f: Field, order: seq<Value>, latest: map<Value, Value>) {
    && (forall k :: k in latest <==> k in order)
    && (forall k :: k in latest ==> Last(Group(s, f, k)) == Some(latest[k]))
  }

  /** `[latest[k] for k in order]`. */
  function Spelt(order: seq<Value>, latest: map<Value, Value>): (r: seq<Value>)
    requires forall k :: k in order ==> k in latest
    ensures |r| == |order| && forall i :: 0 <= i < |r| ==> r[i] == latest[order[i]]
  {
    seq(|order|, i requires 0 <= i < |order| => latest[order[i]])
  }

  lemma SpeltIsLatest(s: seq<Value>, f: Field, order: seq<Value>, latest: map<Value, Value>, r: seq<Value>)
    requires order == FirstSeen(s, f) && LatestIn(s, f, order, latest) && r == Spelt(order, latest)
    ensures r == LatestPer(s, f)
  {
    forall i | 0 <= i < |r| ensures Last(Group(s, f, order[i])) == Some(r[i]) {
      assert order[i] in latest;
    }
    LatestPerUnique(s, f, r, LatestPer(s, f));
  }

  lemma NoteLatestAt(s: seq<Value>, f: Field, h: Value, latest: map<Value, Value>, k: Value)
    requires k in latest ==> Last(Group(s, f, k)) == Some(latest[k])
    requires k in latest || k == Get(h, f)
    ensures Last(Group(s + [h], f, k)) == Some(latest[Get(h, f) := h][k])
  {
    GroupAppend(s, f, k, h);
  }

  lemma NoteLatest(s: seq<Value>, f: Field, h: Value, order: seq<Value>, latest: map<Value, Value>)
    requires order == FirstSeen(s, f) && LatestIn(s, f, order, latest)
    ensures var k := Get(h, f);
            && FirstSeen(s + [h], f) == (if k in latest then order else order + [k])
            && LatestIn(s + [h], f, FirstSeen(s + [h], f), latest[k := h])
  {
    FirstSeenAppend(s, f, h);
    forall k | k in latest[Get(h, f) := h]
      ensures Last(Group(s + [h], f, k)) == Some(latest[Get(h, f) := h][k])
    {
      NoteLatestAt(s, f, h, latest, k);
    }
  }
}
