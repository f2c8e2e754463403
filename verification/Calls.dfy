/** What the query methods of the ports mean, by the attributes of the records. */
module Calls {
  import opened Domain
  import opened Tables
  import opened Containers
  import opened Keyed
  import opened Ledger
  import opened Ports
  import opened Refinement
  import opened Backends

  /** The shared query methods, as their callers know them. */
  datatype Call =
    | GetEvidence(id: string) | ListEvidence(scope: Scope)
    | GetInference(id: string) | ListInference(scope: Scope)
    | GetRecord(recordId: string, space: string)
    | LatestHypothesis(hypothesisId: string, scope: Scope) | Lineage(hypothesisId: string, scope: Scope)
    | ListHypotheses(scope: Scope)
    | GetPrediction(id: string) | ListPredictions(scope: Scope)
    | LatestInquiry(id: string) | InquiryHistory(id: string) | ListInquiries(scope: Scope)
    | GetVersion(scope: Scope, version: string) | GetPointer(scope: Scope) | GetCurrentModel(scope: Scope)
    | GetAnomaly(id: string) | GetProvenance(id: string) | ListRecognition(scope: Scope)
    | EdgesFrom(ref: string) | EdgesTo(ref: string)
    | ReadAll(scope: Scope) | ReadAfter(scope: Scope, after: int)

  function QueryOf(c: Call): Query {
    match c
    case GetEvidence(id) => GetOne(TEvidence, map[CId := id])
    case ListEvidence(s) => ListAll(TEvidence, ScopeCond(s))
    case GetInference(id) => GetOne(TInference, map[CId := id])
    case ListInference(s) => ListAll(TInference, ScopeCond(s))
    case GetRecord(id, space) => GetOne(THypotheses, map[CRecordId := id, CSpace := space])
    case LatestHypothesis(id, s) => Newest(THypotheses, ScopeCond(s)[CHypothesisId := id])
    case Lineage(id, s) => ListAll(THypotheses, ScopeCond(s)[CHypothesisId := id])
    case ListHypotheses(s) => ListLatest(THypotheses, s, CHypothesisId)
    case GetPrediction(id) => GetOne(TPredictions, map[CId := id])
    case ListPredictions(s) => ListAll(TPredictions, ScopeCond(s))
    case LatestInquiry(id) => Newest(TInquiries, map[CId := id])
    case InquiryHistory(id) => ListAll(TInquiries, map[CId := id])
    case ListInquiries(s) => ListLatest(TInquiries, s, CId)
    case GetVersion(s, version) => GetOne(TWorldModels, ScopeCond(s)[CVersion := version])
    case GetPointer(s) => GetOne(TCurrentPointer, ScopeCond(s))
    case GetCurrentModel(s) => CurrentModel(s)
    case GetAnomaly(id) => GetOne(TAnomalies, map[CId := id])
    case GetProvenance(id) => GetOne(TProvenance, map[CId := id])
    case ListRecognition(s) => ListAll(TRecognition, ScopeCond(s))
    case EdgesFrom(ref) => ListAll(TDependencies, map[CFromRef := ref])
    case EdgesTo(ref) => ListAll(TDependencies, map[CToRef := ref])
    case ReadAll(s) => ReadLedger(s)
    case ReadAfter(s, after) => ReadSince(s, after)
  }

  // ----- the descriptions -----

  /** The records that satisfy the test, each once and in order. */
  ghost predicate Exactly(recs: seq<Value>, r: seq<Value>, test: Value -> bool) {
    exists at: seq<nat> :: PicksOut(recs, r, at) && Passing(recs, test, at)
  }

  ghost predicate Passing(recs: seq<Value>, test: Value -> bool, at: seq<nat>) {
    forall i :: 0 <= i < |recs| ==> (test(recs[i]) <==> i in at)
  }

  ghost predicate IsFirst(recs: seq<Value>, r: Option<Value>, test: Value -> bool) {
    match r
    case None => forall i :: 0 <= i < |recs| ==> !test(recs[i])
    case Some(v) =>
      exists i :: 0 <= i < |recs| && recs[i] == v && test(v) && forall j :: 0 <= j < i ==> !test(recs[j])
  }

  ghost predicate IsLast(recs: seq<Value>, r: Option<Value>, test: Value -> bool) {
    match r
    case None => forall i :: 0 <= i < |recs| ==> !test(recs[i])
    case Some(v) =>
      exists i :: 0 <= i < |recs| && recs[i] == v && test(v) && forall j :: i < j < |recs| ==> !test(recs[j])
  }

  predicate InScope(v: Value, s: Scope) { Get(v, SpaceId) == Str(s.space) && Get(v, SubjectId) == Str(s.subject) }

  /** One record per value of the attribute among the records of the scope: the last with that value, and the
      values in the order they first occur. */
  ghost predicate LatestEach(recs: seq<Value>, r: seq<Value>, s: Scope, f: Field) {
    exists found :: Exactly(recs, found, v => InScope(v, s)) && EachLatest(found, r, f)
  }

  ghost predicate EachLatest(found: seq<Value>, r: seq<Value>, f: Field) {
    && (forall v :: v in found ==> exists k :: 0 <= k < |r| && Get(r[k], f) == Get(v, f))
    && (forall k :: 0 <= k < |r| ==> IsLast(found, Some(r[k]), v => Get(v, f) == Get(r[k], f)))
    && (forall j, k :: 0 <= j < k < |r| ==> OccursBefore(found, f, Get(r[j], f), Get(r[k], f)))
  }

  /** The one value occurs before the other does for the first time. */
  ghost predicate OccursBefore(found: seq<Value>, f: Field, x: Value, y: Value) {
    exists i :: 0 <= i < |found| && Get(found[i], f) == x && forall j :: 0 <= j <= i ==> Get(found[j], f) != y
  }

  ghost predicate IsCurrentModel(pointers: seq<Value>, models: seq<Value>, s: Scope, r: Option<Value>) {
    exists pointer ::
      && IsFirst(pointers, pointer, v => InScope(v, s))
      && if pointer.None? then r == None
         else IsFirst(models, r,
                      v => InScope(v, s) && Get(v, ModelVersionId) == Get(pointer.value, ModelVersionId))
  }

  /** What the method promises its caller, given the records that were added. */
  ghost predicate Means(m: Memory, c: Call, a: Answer) {
    match c
    case GetEvidence(id) => a.One? && IsFirst(Lookup(m.recs, TEvidence), a.r, v => Get(v, Id) == Str(id))
    case ListEvidence(s) => a.Many? && Exactly(Lookup(m.recs, TEvidence), a.s, v => InScope(v, s))
    case GetInference(id) => a.One? && IsFirst(Lookup(m.recs, TInference), a.r, v => Get(v, Id) == Str(id))
    case ListInference(s) => a.Many? && Exactly(Lookup(m.recs, TInference), a.s, v => InScope(v, s))
    case GetRecord(id, space) =>
      a.One? && IsFirst(Lookup(m.recs, THypotheses), a.r, v => Get(v, RecordId) == Str(id)
          && Get(v, SpaceId) == Str(space))
    case LatestHypothesis(id, s) =>
      a.One? && IsLast(Lookup(m.recs, THypotheses), a.r, v => InScope(v, s) && Get(v, HypothesisId) == Str(id))
    case Lineage(id, s) =>
      a.Many? && Exactly(Lookup(m.recs, THypotheses), a.s, v => InScope(v, s) && Get(v, HypothesisId) == Str(id))
    case ListHypotheses(s) => a.Many? && LatestEach(Lookup(m.recs, THypotheses), a.s, s, HypothesisId)
    case GetPrediction(id) => a.One? && IsFirst(Lookup(m.recs, TPredictions), a.r, v => Get(v, Id) == Str(id))
    case ListPredictions(s) => a.Many? && Exactly(Lookup(m.recs, TPredictions), a.s, v => InScope(v, s))
    case LatestInquiry(id) => a.One? && IsLast(Lookup(m.recs, TInquiries), a.r, v => Get(v, Id) == Str(id))
    case InquiryHistory(id) => a.Many? && Exactly(Lookup(m.recs, TInquiries), a.s, v => Get(v, Id) == Str(id))
    case ListInquiries(s) => a.Many? && LatestEach(Lookup(m.recs, TInquiries), a.s, s, Id)
    case GetVersion(s, version) =>
      a.One? && IsFirst(Lookup(m.recs, TWorldModels), a.r, v => InScope(v, s) && Get(v, ModelVersionId) == Str(version))
    case GetPointer(s) => a.One? && IsFirst(Lookup(m.recs, TCurrentPointer), a.r, v => InScope(v, s))
    case GetCurrentModel(s) => a.One? && IsCurrentModel(Lookup(m.recs, TCurrentPointer), Lookup(m.recs, TWorldModels),
        s, a.r)
    case GetAnomaly(id) => a.One? && IsFirst(Lookup(m.recs, TAnomalies), a.r, v => Get(v, Id) == Str(id))
    case GetProvenance(id) => a.One? && IsFirst(Lookup(m.recs, TProvenance), a.r, v => Get(v, Id) == Str(id))
    case ListRecognition(s) => a.Many? && Exactly(Lookup(m.recs, TRecognition), a.s, v => InScope(v, s))
    case EdgesFrom(ref) => a.Many? && Exactly(Lookup(m.recs, TDependencies), a.s, v => Get(v, FromRef) == Str(ref))
    case EdgesTo(ref) => a.Many? && Exactly(Lookup(m.recs, TDependencies), a.s, v => Get(v, ToRef) == Str(ref))
    case ReadAll(s) => a == Many(Lookup(m.books, s))
    case ReadAfter(s, after) => a.Many? && Exactly(Lookup(m.books, s), a.s, e => NumberAbove(e, after))
  }

  predicate NumberAbove(e: Value, after: int) { Get(e, SequenceNo).Int? && Get(e, SequenceNo).i > after }

  // ----- conditions on columns are conditions on attributes -----

  lemma ById(v: Value, id: string)
    ensures Matches(v, map[CId := id]) <==> Get(v, Id) == Str(id)
  {
    var cond := map[CId := id];
    assert CId in cond && cond.Keys == {CId};
  }

  lemma ByFrom(v: Value, ref: string)
    ensures Matches(v, map[CFromRef := ref]) <==> Get(v, FromRef) == Str(ref)
  {
    var cond := map[CFromRef := ref];
    assert CFromRef in cond && cond.Keys == {CFromRef};
  }

  lemma ByTo(v: Value, ref: string)
    ensures Matches(v, map[CToRef := ref]) <==> Get(v, ToRef) == Str(ref)
  {
    var cond := map[CToRef := ref];
    assert CToRef in cond && cond.Keys == {CToRef};
  }

  lemma ByScope(v: Value, s: Scope)
    ensures Matches(v, ScopeCond(s)) <==> InScope(v, s)
  {
    var cond := ScopeCond(s);
    assert CSpace in cond && CSubject in cond && cond.Keys == {CSpace, CSubject};
  }

  lemma ByRecord(v: Value, id: string, space: string)
    ensures Matches(v, map[CRecordId := id, CSpace := space]) <==>
            Get(v, RecordId) == Str(id) && Get(v, SpaceId) == Str(space)
  {
    var cond := map[CRecordId := id, CSpace := space];
    assert CRecordId in cond && CSpace in cond && cond.Keys == {CRecordId, CSpace};
  }

  lemma ByLineage(v: Value, s: Scope, id: string)
    ensures Matches(v, ScopeCond(s)[CHypothesisId := id]) <==> InScope(v, s) && Get(v, HypothesisId) == Str(id)
  {
    MatchesMore(v, s, CHypothesisId, id);
    ByScope(v, s);
  }

  lemma ByVersion(v: Value, s: Scope, version: string)
    ensures Matches(v, ScopeCond(s)[CVersion := version]) <==> InScope(v, s) && Get(v, ModelVersionId) == Str(version)
  {
    MatchesMore(v, s, CVersion, version);
    ByScope(v, s);
  }

  // ----- the selections meet the descriptions -----

  lemma SelectedExactly(recs: seq<Value>, cond: Cond, test: Value -> bool)
    requires forall v :: Matches(v, cond) <==> test(v)
    ensures Exactly(recs, Select(recs, cond), test)
  {
    var at := SelectIs(recs, cond);
    assert Passing(recs, test, at);
  }

  /** Rising positions lie between the first and the last of them. */
  lemma Between(at: seq<nat>, j: nat)
    requires forall i, k :: 0 <= i < k < |at| ==> at[i] < at[k]
    requires j in at
    ensures at[0] <= j <= at[|at| - 1]
  {
  }

  lemma Outside(recs: seq<Value>, r: seq<Value>, at: seq<nat>, j: nat, test: Value -> bool)
    requires PicksOut(recs, r, at) && Passing(recs, test, at) && j < |recs|
    requires at != [] ==> j < at[0] || j > at[|at| - 1]
    ensures !test(recs[j])
  {
    if j in at {
      Between(at, j);
    }
  }

  lemma PickedAt(recs: seq<Value>, r: seq<Value>, at: seq<nat>, k: nat, test: Value -> bool)
    requires PicksOut(recs, r, at) && Passing(recs, test, at) && k < |at|
    ensures at[k] < |recs| && recs[at[k]] == r[k] && test(r[k])
  {
    assert at[k] in at;
  }

  lemma FirstIs(recs: seq<Value>, r: seq<Value>, at: seq<nat>, test: Value -> bool)
    requires PicksOut(recs, r, at) && Passing(recs, test, at)
    ensures IsFirst(recs, First(r), test)
  {
    if r == [] {
      forall j | 0 <= j < |recs| ensures !test(recs[j]) {
        Outside(recs, r, at, j, test);
      }
    } else {
      PickedAt(recs, r, at, 0, test);
      forall j | 0 <= j < at[0] ensures !test(recs[j]) {
        Outside(recs, r, at, j, test);
      }
    }
  }

  lemma LastIs(recs: seq<Value>, r: seq<Value>, at: seq<nat>, test: Value -> bool)
    requires PicksOut(recs, r, at) && Passing(recs, test, at)
    ensures IsLast(recs, Last(r), test)
  {
    if r == [] {
      forall j | 0 <= j < |recs| ensures !test(recs[j]) {
        Outside(recs, r, at, j, test);
      }
    } else {
      var n := |at| - 1;
      PickedAt(recs, r, at, n, test);
      forall j | at[n] < j < |recs| ensures !test(recs[j]) {
        Outside(recs, r, at, j, test);
      }
    }
  }

  lemma EndsOf(recs: seq<Value>, r: seq<Value>, test: Value -> bool)
    requires Exactly(recs, r, test)
    ensures IsFirst(recs, First(r), test) && IsLast(recs, Last(r), test)
  {
    var at: seq<nat> :| PicksOut(recs, r, at) && Passing(recs, test, at);
    FirstIs(recs, r, at, test);
    LastIs(recs, r, at, test);
  }

  // ----- one record per lineage -----

  lemma PassOne(s: seq<Value>, x: Value, test: Value -> bool, at: seq<nat>, after: seq<nat>)
    requires Passing(s, test, at) && forall i :: i in after <==> i in at || (test(x) && i == |s|)
    requires forall i :: i in at ==> i < |s|
    ensures Passing(s + [x], test, after)
  {
  }

  lemma ExactlyAppend(s: seq<Value>, r: seq<Value>, test: Value -> bool, x: Value)
    requires Exactly(s, r, test)
    ensures Exactly(s + [x], r + if test(x) then [x] else [], test)
  {
    var at: seq<nat> :| PicksOut(s, r, at) && Passing(s, test, at);
    var after := PickOne(s, r, at, x, test(x));
    PassOne(s, x, test, at, after);
  }

  lemma GroupStep(s: seq<Value>, f: Field, key: Value, v: Value)
    requires Exactly(s, Group(s, f, key), u => Get(u, f) == key)
    ensures Exactly(s + [v], Group(s + [v], f, key), u => Get(u, f) == key)
  {
    GroupAppend(s, f, key, v);
    ExactlyAppend(s, Group(s, f, key), u => Get(u, f) == key, v);
  }

  lemma {:induction false} GroupIs(s: seq<Value>, f: Field, key: Value)
    ensures Exactly(s, Group(s, f, key), v => Get(v, f) == key)
  {
    if s == [] {
      NothingExactly(v => Get(v, f) == key);
    } else {
      GroupIs(s[..|s| - 1], f, key);
      GroupStep(s[..|s| - 1], f, key, s[|s| - 1]);
      SplitLast(s);
    }
  }

  lemma NothingExactly(test: Value -> bool)
    ensures Exactly([], [], test)
  {
    assert PicksOut<Value>([], [], []) && Passing([], test, []);
  }

  lemma GroupEnds(s: seq<Value>, f: Field, key: Value)
    ensures IsFirst(s, First(Group(s, f, key)), v => Get(v, f) == key)
    ensures IsLast(s, Last(Group(s, f, key)), v => Get(v, f) == key)
  {
    GroupIs(s, f, key);
    EndsOf(s, Group(s, f, key), v => Get(v, f) == key);
  }

  lemma OccursStill(s: seq<Value>, v: Value, f: Field, x: Value, y: Value)
    requires OccursBefore(s, f, x, y)
    ensures OccursBefore(s + [v], f, x, y)
  {
    var i :| 0 <= i < |s| && Get(s[i], f) == x && forall j :: 0 <= j <= i ==> Get(s[j], f) != y;
    assert (s + [v])[i] == s[i];
  }

  lemma OccursFirst(s: seq<Value>, v: Value, f: Field, x: Value)
    requires x in FirstSeen(s, f) && Get(v, f) !in FirstSeen(s, f)
    ensures OccursBefore(s + [v], f, x, Get(v, f))
  {
    SeenIs(s, f, x);
    FirstSeenIsDistinct(s, f);
    var i :| 0 <= i < |s| && Get(s[i], f) == x;
    assert (s + [v])[i] == s[i];
    assert forall j :: 0 <= j <= i ==> s[j] in s;
  }

  lemma {:induction false} SeenIs(s: seq<Value>, f: Field, x: Value)
    requires x in FirstSeen(s, f)
    ensures exists i :: 0 <= i < |s| && Get(s[i], f) == x
  {
    var init, last := s[..|s| - 1], s[|s| - 1];
    if Get(last, f) != x {
      SeenIs(init, f, x);
      var i :| 0 <= i < |init| && Get(init[i], f) == x;
      assert s[i] == init[i];
    }
  }

  lemma {:induction false} SeenInOrder(s: seq<Value>, f: Field, j: nat, k: nat)
    requires j < k < |FirstSeen(s, f)|
    ensures OccursBefore(s, f, FirstSeen(s, f)[j], FirstSeen(s, f)[k])
  {
    var init, last := s[..|s| - 1], s[|s| - 1];
    assert s == init + [last];
    var before := FirstSeen(init, f);
    FirstSeenAppend(init, f, last);
    if k < |before| {
      SeenInOrder(init, f, j, k);
      OccursStill(init, last, f, before[j], before[k]);
    } else {
      OccursFirst(init, last, f, before[j]);
    }
  }

  lemma LatestMeans(found: seq<Value>, f: Field)
    ensures EachLatest(found, LatestPer(found, f), f)
  {
    var order, r := FirstSeen(found, f), LatestPer(found, f);
    assert IsLatestPer(found, f, r);
    FirstSeenIsDistinct(found, f);
    forall k | 0 <= k < |r|
      ensures order[k] == Get(r[k], f) && IsLast(found, Some(r[k]), v => Get(v, f) == Get(r[k], f))
    {
      LatestIs(found, f, order[k], r[k]);
    }
    forall v | v in found ensures exists k :: 0 <= k < |r| && Get(r[k], f) == Get(v, f) {
      var k :| 0 <= k < |order| && order[k] == Get(v, f);
      assert Get(r[k], f) == order[k];
    }
    forall j, k | 0 <= j < k < |r| ensures OccursBefore(found, f, Get(r[j], f), Get(r[k], f)) {
      SeenInOrder(found, f, j, k);
    }
  }

  lemma LatestIs(found: seq<Value>, f: Field, key: Value, v: Value)
    requires Last(Group(found, f, key)) == Some(v)
    ensures Get(v, f) == key && IsLast(found, Some(v), u => Get(u, f) == Get(v, f))
  {
    GroupIsSelected(found, f, key, v);
    GroupEnds(found, f, key);
    var i :| 0 <= i < |found| && found[i] == v && forall j :: i < j < |found| ==> Get(found[j], f) != key;
  }

  // ----- the answers -----

  lemma SelectedMeans(recs: seq<Value>, cond: Cond, test: Value -> bool)
    requires forall v :: Matches(v, cond) <==> test(v)
    ensures Exactly(recs, Select(recs, cond), test)
    ensures IsFirst(recs, First(Select(recs, cond)), test) && IsLast(recs, Last(Select(recs, cond)), test)
  {
    SelectedExactly(recs, cond, test);
    EndsOf(recs, Select(recs, cond), test);
  }

  lemma IdMeans(recs: seq<Value>, id: string)
    ensures Exactly(recs, Select(recs, map[CId := id]), v => Get(v, Id) == Str(id))
    ensures IsFirst(recs, First(Select(recs, map[CId := id])), v => Get(v, Id) == Str(id))
    ensures IsLast(recs, Last(Select(recs, map[CId := id])), v => Get(v, Id) == Str(id))
  {
    forall v ensures Matches(v, map[CId := id]) <==> Get(v, Id) == Str(id) {
      ById(v, id);
    }
    SelectedMeans(recs, map[CId := id], v => Get(v, Id) == Str(id));
  }

  lemma ScopeMeans(recs: seq<Value>, s: Scope)
    ensures Exactly(recs, Select(recs, ScopeCond(s)), v => InScope(v, s))
    ensures IsFirst(recs, First(Select(recs, ScopeCond(s))), v => InScope(v, s))
  {
    forall v ensures Matches(v, ScopeCond(s)) <==> InScope(v, s) {
      ByScope(v, s);
    }
    SelectedMeans(recs, ScopeCond(s), v => InScope(v, s));
  }

  lemma RecordMeans(recs: seq<Value>, id: string, space: string)
    ensures IsFirst(recs, First(Select(recs, map[CRecordId := id, CSpace := space])),
                    v => Get(v, RecordId) == Str(id) && Get(v, SpaceId) == Str(space))
  {
    var cond := map[CRecordId := id, CSpace := space];
    forall v ensures Matches(v, cond) <==> Get(v, RecordId) == Str(id) && Get(v, SpaceId) == Str(space) {
      ByRecord(v, id, space);
    }
    SelectedMeans(recs, cond, v => Get(v, RecordId) == Str(id) && Get(v, SpaceId) == Str(space));
  }

  lemma LineageMeans(recs: seq<Value>, s: Scope, id: string)
    ensures Exactly(recs, Select(recs, ScopeCond(s)[CHypothesisId := id]),
                    v => InScope(v, s) && Get(v, HypothesisId) == Str(id))
    ensures IsLast(recs, Last(Select(recs, ScopeCond(s)[CHypothesisId := id])),
                   v => InScope(v, s) && Get(v, HypothesisId) == Str(id))
  {
    var cond := ScopeCond(s)[CHypothesisId := id];
    forall v ensures Matches(v, cond) <==> InScope(v, s) && Get(v, HypothesisId) == Str(id) {
      ByLineage(v, s, id);
    }
    SelectedMeans(recs, cond, v => InScope(v, s) && Get(v, HypothesisId) == Str(id));
  }

  lemma VersionMeans(recs: seq<Value>, s: Scope, version: string)
    ensures IsFirst(recs, First(Select(recs, ScopeCond(s)[CVersion := version])),
                    v => InScope(v, s) && Get(v, ModelVersionId) == Str(version))
  {
    var cond := ScopeCond(s)[CVersion := version];
    forall v ensures Matches(v, cond) <==> InScope(v, s) && Get(v, ModelVersionId) == Str(version) {
      ByVersion(v, s, version);
    }
    SelectedMeans(recs, cond, v => InScope(v, s) && Get(v, ModelVersionId) == Str(version));
  }

  lemma FromMeans(recs: seq<Value>, ref: string)
    ensures Exactly(recs, Select(recs, map[CFromRef := ref]), v => Get(v, FromRef) == Str(ref))
  {
    forall v ensures Matches(v, map[CFromRef := ref]) <==> Get(v, FromRef) == Str(ref) {
      ByFrom(v, ref);
    }
    SelectedExactly(recs, map[CFromRef := ref], v => Get(v, FromRef) == Str(ref));
  }

  lemma ToMeans(recs: seq<Value>, ref: string)
    ensures Exactly(recs, Select(recs, map[CToRef := ref]), v => Get(v, ToRef) == Str(ref))
  {
    forall v ensures Matches(v, map[CToRef := ref]) <==> Get(v, ToRef) == Str(ref) {
      ByTo(v, ref);
    }
    SelectedExactly(recs, map[CToRef := ref], v => Get(v, ToRef) == Str(ref));
  }

  lemma ListMeans(recs: seq<Value>, s: Scope, f: Field)
    ensures LatestEach(recs, LatestPer(Select(recs, ScopeCond(s)), f), s, f)
  {
    ScopeMeans(recs, s);
    LatestMeans(Select(recs, ScopeCond(s)), f);
  }

  /** The first of a selection that passes a further test is the first record that passes both. */
  lemma FirstWithin(recs: seq<Value>, found: seq<Value>, r: Option<Value>, p: Value -> bool, q: Value -> bool,
                    both: Value -> bool)
    requires Exactly(recs, found, p) && IsFirst(found, r, q)
    requires forall v :: both(v) <==> p(v) && q(v)
    ensures IsFirst(recs, r, both)
  {
    var at: seq<nat> :| PicksOut(recs, found, at) && Passing(recs, p, at);
    if r.None? {
      NoneWithin(recs, found, at, p, q, both);
    } else {
      var k := FirstAt(found, r.value, q);
      OneWithin(recs, found, at, k, p, q, both);
    }
  }

  lemma FirstAt(found: seq<Value>, v: Value, q: Value -> bool) returns (k: nat)
    requires IsFirst(found, Some(v), q)
    ensures k < |found| && found[k] == v && q(found[k]) && forall j :: 0 <= j < k ==> !q(found[j])
  {
    k :| k < |found| && found[k] == v && q(v) && forall j :: 0 <= j < k ==> !q(found[j]);
  }

  lemma NoneWithin(recs: seq<Value>, found: seq<Value>, at: seq<nat>, p: Value -> bool, q: Value -> bool,
                   both: Value -> bool)
    requires PicksOut(recs, found, at) && Passing(recs, p, at) && forall j :: 0 <= j < |found| ==> !q(found[j])
    requires forall v :: both(v) <==> p(v) && q(v)
    ensures IsFirst(recs, None, both)
  {
    forall i | 0 <= i < |recs| ensures !both(recs[i]) {
      NotEarlier(recs, found, at, |at|, i, p, q);
    }
  }

  lemma OneWithin(recs: seq<Value>, found: seq<Value>, at: seq<nat>, k: nat, p: Value -> bool, q: Value -> bool,
                  both: Value -> bool)
    requires PicksOut(recs, found, at) && Passing(recs, p, at)
    requires k < |found| && q(found[k]) && forall j :: 0 <= j < k ==> !q(found[j])
    requires forall v :: both(v) <==> p(v) && q(v)
    ensures IsFirst(recs, Some(found[k]), both)
  {
    PickedAt(recs, found, at, k, p);
    forall i | 0 <= i < at[k] ensures !both(recs[i]) {
      NotEarlier(recs, found, at, k, i, p, q);
    }
  }

  lemma NotEarlier(recs: seq<Value>, found: seq<Value>, at: seq<nat>, k: nat, i: nat, p: Value -> bool,
                   q: Value -> bool)
    requires PicksOut(recs, found, at) && Passing(recs, p, at)
    requires k <= |at| && i < |recs| && (k < |at| ==> i < at[k])
    requires forall j :: 0 <= j < k ==> !q(found[j])
    ensures !(p(recs[i]) && q(recs[i]))
  {
    if i in at {
      var j :| 0 <= j < |at| && at[j] == i;
      assert found[j] == recs[i];
    }
  }

  lemma VersionWithin(recs: seq<Value>, s: Scope, version: Value)
    ensures IsFirst(recs, First(Group(Select(recs, ScopeCond(s)), ModelVersionId, version)),
                    v => InScope(v, s) && Get(v, ModelVersionId) == version)
  {
    var found := Select(recs, ScopeCond(s));
    ScopeMeans(recs, s);
    GroupEnds(found, ModelVersionId, version);
    FirstWithin(recs, found, First(Group(found, ModelVersionId, version)), v => InScope(v, s),
                v => Get(v, ModelVersionId) == version, v => InScope(v, s) && Get(v, ModelVersionId) == version);
  }

  lemma CurrentMeans(m: Memory, s: Scope)
    ensures IsCurrentModel(Lookup(m.recs, TCurrentPointer), Lookup(m.recs, TWorldModels), s,
                           MemoryAnswer(m, CurrentModel(s)).r)
  {
    var pointers, models := Lookup(m.recs, TCurrentPointer), Lookup(m.recs, TWorldModels);
    var pointer := First(Select(pointers, ScopeCond(s)));
    ScopeMeans(pointers, s);
    if pointer.Some? {
      var version := Get(pointer.value, ModelVersionId);
      VersionWithin(models, s, version);
      PointedTo(pointers, models, s, pointer, First(Group(Select(models, ScopeCond(s)), ModelVersionId, version)));
    } else {
      PointedTo(pointers, models, s, None, None);
    }
  }

  lemma PointedTo(pointers: seq<Value>, models: seq<Value>, s: Scope, pointer: Option<Value>, r: Option<Value>)
    requires IsFirst(pointers, pointer, v => InScope(v, s))
    requires if pointer.None? then r == None
             else IsFirst(models, r, v => InScope(v, s) && Get(v, ModelVersionId) == Get(pointer.value, ModelVersionId))
    ensures IsCurrentModel(pointers, models, s, r)
  {
  }

  /** Ledger entries carry their number. */
  ghost predicate Numbered(m: Memory) { forall s :: InOrder(s, Lookup(m.books, s)) }

  lemma {:induction false} SinceMeans(s: Scope, entries: seq<Value>, after: int)
    requires InOrder(s, entries)
    ensures Exactly(entries, Since(entries, after), e => NumberAbove(e, after))
  {
    var test := e => NumberAbove(e, after);
    if entries == [] {
      NothingExactly(test);
    } else {
      var init, last := entries[..|entries| - 1], entries[|entries| - 1];
      InOrderPrefix(s, entries);
      SinceMeans(s, init, after);
      assert entries == init + [last];
      SinceAppend(init, last, after);
      ExactlyAppend(init, Since(init, after), test, last);
    }
  }

  lemma GetterMeans(m: Memory, c: Call)
    requires c.GetEvidence? || c.GetInference? || c.GetPrediction? || c.GetAnomaly? || c.GetProvenance?
    ensures Means(m, c, MemoryAnswer(m, QueryOf(c)))
  {
    IdMeans(Lookup(m.recs, QueryOf(c).t), c.id);
  }

  lemma ListingMeans(m: Memory, c: Call)
    requires c.ListEvidence? || c.ListInference? || c.ListPredictions? || c.ListRecognition? || c.GetPointer?
    ensures Means(m, c, MemoryAnswer(m, QueryOf(c)))
  {
    ScopeMeans(Lookup(m.recs, QueryOf(c).t), c.scope);
  }

  lemma HypothesisMeans(m: Memory, c: Call)
    requires c.GetRecord? || c.LatestHypothesis? || c.Lineage? || c.ListHypotheses?
    ensures Means(m, c, MemoryAnswer(m, QueryOf(c)))
  {
    var recs := Lookup(m.recs, THypotheses);
    match c
    case GetRecord(id, space) => RecordMeans(recs, id, space);
    case LatestHypothesis(id, s) => LineageMeans(recs, s, id);
    case Lineage(id, s) => LineageMeans(recs, s, id);
    case ListHypotheses(s) => ListMeans(recs, s, HypothesisId);
  }

  lemma InquiryMeans(m: Memory, c: Call)
    requires c.LatestInquiry? || c.InquiryHistory? || c.ListInquiries?
    ensures Means(m, c, MemoryAnswer(m, QueryOf(c)))
  {
    var recs := Lookup(m.recs, TInquiries);
    match c
    case LatestInquiry(id) => IdMeans(recs, id);
    case InquiryHistory(id) => IdMeans(recs, id);
    case ListInquiries(s) => ListMeans(recs, s, Id);
  }

  lemma EdgesMean(m: Memory, c: Call)
    requires c.EdgesFrom? || c.EdgesTo?
    ensures Means(m, c, MemoryAnswer(m, QueryOf(c)))
  {
    if c.EdgesFrom? {
      FromMeans(Lookup(m.recs, TDependencies), c.ref);
    } else {
      ToMeans(Lookup(m.recs, TDependencies), c.ref);
    }
  }

  /** In memory, every query method answers what its attributes say. */
  lemma MemoryMeans(m: Memory, c: Call)
    requires Numbered(m)
    ensures Means(m, c, MemoryAnswer(m, QueryOf(c)))
  {
    if c.GetEvidence? || c.GetInference? || c.GetPrediction? || c.GetAnomaly? || c.GetProvenance? {
      GetterMeans(m, c);
    } else if c.ListEvidence? || c.ListInference? || c.ListPredictions? || c.ListRecognition? || c.GetPointer? {
      ListingMeans(m, c);
    } else if c.GetRecord? || c.LatestHypothesis? || c.Lineage? || c.ListHypotheses? {
      HypothesisMeans(m, c);
    } else if c.LatestInquiry? || c.InquiryHistory? || c.ListInquiries? {
      InquiryMeans(m, c);
    } else if c.EdgesFrom? || c.EdgesTo? {
      EdgesMean(m, c);
    } else {
      OtherMeans(m, c);
    }
  }

  lemma OtherMeans(m: Memory, c: Call)
    requires Numbered(m) && (c.GetVersion? || c.GetCurrentModel? || c.ReadAll? || c.ReadAfter?)
    ensures Means(m, c, MemoryAnswer(m, QueryOf(c)))
  {
    if c.GetVersion? || c.GetCurrentModel? {
      ModelAnswers(m, c);
    } else {
      LedgerAnswers(m, c);
    }
  }

  lemma ModelAnswers(m: Memory, c: Call)
    requires c.GetVersion? || c.GetCurrentModel?
    ensures Means(m, c, MemoryAnswer(m, QueryOf(c)))
  {
    if c.GetVersion? {
      VersionMeans(Lookup(m.recs, TWorldModels), c.scope, c.version);
    } else {
      CurrentMeans(m, c.scope);
    }
  }

  lemma LedgerAnswers(m: Memory, c: Call)
    requires Numbered(m) && (c.ReadAll? || c.ReadAfter?)
    ensures Means(m, c, MemoryAnswer(m, QueryOf(c)))
  {
    if c.ReadAfter? {
      assert InOrder(c.scope, Lookup(m.books, c.scope));
      SinceMeans(c.scope, Lookup(m.books, c.scope), c.after);
    }
  }

  /** There is no shared query besides these calls. */
  lemma QueriesAreCalls(q: Query)
    ensures IsQuery(q) <==> exists c :: QueryOf(c) == q
  {
    if c :| QueryOf(c) == q {
      CallIsQuery(c);
    }
    if IsQuery(q) {
      var c := CallFor(q);
    }
  }

  /** In both backends: whatever is asked of a database that simulates the memory, with unambiguous keys, is
      answered by the attributes of the records the memory holds. */
  lemma SqlMeans(m: Memory, db: Database, c: Call)
    requires Sim(m, db) && KeysUnique(m)
    ensures Means(m, c, MemoryAnswer(m, QueryOf(c))) && Means(m, c, SqlAnswer(db, QueryOf(c)))
  {
    forall s ensures InOrder(s, Lookup(m.books, s)) {
      assert LedgerSim(m.books, Lookup(db, TLedger), s);
    }
    MemoryMeans(m, c);
    CallIsQuery(c);
    AnswersAgree(m, db, QueryOf(c));
  }

  /** After every admissible run, from empty tables, both backends do. */
  lemma RunMeans(db: Database, ops: seq<Op>, c: Call)
    requires forall t: Table :: Lookup(db, t) == []
    requires Admissible(EMPTY_MEMORY, ops)
    ensures forall op :: op in ops ==> IsOp(op)
    ensures var m := RunMemory(EMPTY_MEMORY, ops).0;
            && Means(m, c, MemoryAnswer(m, QueryOf(c)))
            && Means(m, c, SqlAnswer(RunSql(db, ops).0, QueryOf(c)))
  {
    FreshRun(db, ops);
    SqlMeans(RunMemory(EMPTY_MEMORY, ops).0, RunSql(db, ops).0, c);
  }

  lemma RunIsNumbered(ops: seq<Op>)
    requires Admissible(EMPTY_MEMORY, ops)
    ensures (forall op :: op in ops ==> IsOp(op)) && Numbered(RunMemory(EMPTY_MEMORY, ops).0)
  {
    FreshRun(map[], ops);
    var m, db := RunMemory(EMPTY_MEMORY, ops).0, RunSql(map[], ops).0;
    forall s ensures InOrder(s, Lookup(m.books, s)) {
      assert LedgerSim(m.books, Lookup(db, TLedger), s);
    }
  }

  lemma FreshRun(db: Database, ops: seq<Op>)
    requires forall t: Table :: Lookup(db, t) == []
    requires Admissible(EMPTY_MEMORY, ops)
    ensures forall op :: op in ops ==> IsOp(op)
    ensures Sim(RunMemory(EMPTY_MEMORY, ops).0, RunSql(db, ops).0) && KeysUnique(RunMemory(EMPTY_MEMORY, ops).0)
  {
    AdmissibleOps(EMPTY_MEMORY, ops);
    EmptySimulates(db);
    BackendsAgree(EMPTY_MEMORY, db, ops);
  }

  lemma CallIsQuery(c: Call)
    ensures IsQuery(QueryOf(c))
  {
    match c
    case GetRecord(id, space) => assert map[CRecordId := id, CSpace := space].Keys == {CRecordId, CSpace};
    case LatestHypothesis(id, s) => assert ScopeCond(s)[CHypothesisId := id].Keys == {CHypothesisId, CSubject, CSpace};
    case Lineage(id, s) => assert ScopeCond(s)[CHypothesisId := id].Keys == {CHypothesisId, CSubject, CSpace};
    case GetVersion(s, version) => assert ScopeCond(s)[CVersion := version].Keys == {CSpace, CSubject, CVersion};
    case _ =>
  }

  lemma ScopeOfCond(cond: Cond) returns (s: Scope)
    requires cond.Keys == {CSpace, CSubject}
    ensures cond == ScopeCond(s)
  {
    assert CSpace in cond.Keys && CSubject in cond.Keys;
    s := Scope(cond[CSpace], cond[CSubject]);
    assert ScopeCond(s).Keys == cond.Keys;
  }

  lemma OneKey(cond: Cond, c: Column) returns (key: string)
    requires cond.Keys == {c}
    ensures cond == map[c := key]
  {
    assert c in cond.Keys;
    key := cond[c];
    assert map[c := key].Keys == cond.Keys;
  }

  lemma ScopeAndKey(cond: Cond, c: Column) returns (s: Scope, key: string)
    requires cond.Keys == {CSpace, CSubject, c} && c != CSpace && c != CSubject
    ensures cond == ScopeCond(s)[c := key]
  {
    assert CSpace in cond.Keys && CSubject in cond.Keys && c in cond.Keys;
    s, key := Scope(cond[CSpace], cond[CSubject]), cond[c];
    assert ScopeCond(s)[c := key].Keys == cond.Keys;
  }

  lemma GetterFor(t: Table, cond: Cond) returns (c: Call)
    requires IsQuery(GetOne(t, cond))
    ensures QueryOf(c) == GetOne(t, cond)
  {
    match t
    case THypotheses =>
      assert CRecordId in cond.Keys && CSpace in cond.Keys;
      c := GetRecord(cond[CRecordId], cond[CSpace]);
      assert map[CRecordId := cond[CRecordId], CSpace := cond[CSpace]] == cond;
    case TWorldModels =>
      var s, key := ScopeAndKey(cond, CVersion);
      c := GetVersion(s, key);
    case TCurrentPointer =>
      var s := ScopeOfCond(cond);
      c := GetPointer(s);
    case _ =>
      var id := OneKey(cond, CId);
      c := if t.TEvidence? then GetEvidence(id) else if t.TInference? then GetInference(id)
           else if t.TPredictions? then GetPrediction(id) else if t.TAnomalies? then GetAnomaly(id)
           else GetProvenance(id);
  }

  lemma ListFor(t: Table, cond: Cond) returns (c: Call)
    requires IsQuery(ListAll(t, cond))
    ensures QueryOf(c) == ListAll(t, cond)
  {
    if t.THypotheses? {
      var s, id := ScopeAndKey(cond, CHypothesisId);
      c := Lineage(id, s);
    } else if t.TInquiries? {
      var id := OneKey(cond, CId);
      c := InquiryHistory(id);
    } else if t.TDependencies? {
      var from := cond.Keys == {CFromRef};
      var ref := OneKey(cond, if from then CFromRef else CToRef);
      c := if from then EdgesFrom(ref) else EdgesTo(ref);
    } else {
      var s := ScopeOfCond(cond);
      c := if t.TEvidence? then ListEvidence(s) else if t.TInference? then ListInference(s)
           else if t.TPredictions? then ListPredictions(s) else ListRecognition(s);
    }
  }

  lemma CallFor(q: Query) returns (c: Call)
    requires IsQuery(q)
    ensures QueryOf(c) == q
  {
    match q
    case GetOne(t, cond) => c := GetterFor(t, cond);
    case Newest(t, cond) =>
      if t.THypotheses? {
        var s, id := ScopeAndKey(cond, CHypothesisId);
        c := LatestHypothesis(id, s);
      } else {
        var id := OneKey(cond, CId);
        c := LatestInquiry(id);
      }
    case ListAll(t, cond) => c := ListFor(t, cond);
    case ListLatest(t, scope, _) => c := if t.THypotheses? then ListHypotheses(scope) else ListInquiries(scope);
    case ReadLedger(scope) => c := ReadAll(scope);
    case ReadSince(scope, after) => c := ReadAfter(scope, after);
    case CurrentModel(scope) => c := GetCurrentModel(scope);
  }

  // ----- the writes -----

  /** Two records of a table stand under one key. */
  predicate SameSlot(t: Table, x: Value, v: Value) {
    match t
    case TWorldModels =>
      Get(x, SpaceId) == Get(v, SpaceId) && Get(x, SubjectId) == Get(v, SubjectId)
      && Get(x, ModelVersionId) == Get(v, ModelVersionId)
    case TCurrentPointer => Get(x, SpaceId) == Get(v, SpaceId) && Get(x, SubjectId) == Get(v, SubjectId)
    case _ => Get(x, Id) == Get(v, Id)
  }

  /** The first record in the slot is replaced where it stands, or the record goes last. */
  ghost predicate Replaces(t: Table, before: seq<Value>, after: seq<Value>, v: Value) {
    if forall x :: x in before ==> !SameSlot(t, x, v) then after == before + [v]
    else exists i :: 0 <= i < |before| && SameSlot(t, before[i], v) && after == before[i := v]
                     && forall j :: 0 <= j < i ==> !SameSlot(t, before[j], v)
  }

  /** What adding a record does to its table: immutable records are refused a second time, derived and current
      ones are replaced, histories only grow. */
  ghost predicate Wrote(t: Table, before: seq<Value>, after: seq<Value>, v: Value, ok: bool) {
    if t.TEvidence? || t.TInference? || t.TWorldModels? then
      && (ok <==> forall x :: x in before ==> !SameSlot(t, x, v))
      && after == if ok then before + [v] else before
    else if t.TPredictions? || t.TAnomalies? || t.TProvenance? || t.TCurrentPointer? then
      ok && Replaces(t, before, after, v)
    else ok && after == before + [v]
  }

  lemma SlotIsKey(t: Table, x: Value, v: Value)
    requires !t.TLedger?
    ensures !MemoryKind(t).Append? ==> (SameKey(MemoryKind(t).key, x, v) <==> SameSlot(t, x, v))
  {
    match t
    case TWorldModels => VersionSlot(x, v);
    case TCurrentPointer => PointerSlot(x, v);
    case _ => IdSlot(x, v);
  }

  lemma VersionSlot(x: Value, v: Value)
    ensures SameKey({CSpace, CSubject, CVersion}, x, v) <==> SameSlot(TWorldModels, x, v)
  {
    assert CSpace in {CSpace, CSubject, CVersion};
  }

  lemma PointerSlot(x: Value, v: Value)
    ensures SameKey({CSpace, CSubject}, x, v) <==> SameSlot(TCurrentPointer, x, v)
  {
    assert CSpace in {CSpace, CSubject};
  }

  lemma IdSlot(x: Value, v: Value)
    ensures SameKey({CId}, x, v) <==> Get(x, Id) == Get(v, Id)
  {
    assert CId in {CId};
  }

  lemma PutReplaces(t: Table, s: seq<Value>, key: set<Column>, v: Value)
    requires forall x :: SameKey(key, x, v) <==> SameSlot(t, x, v)
    ensures Replaces(t, s, Put(s, key, v), v)
  {
    var i := FirstInSlot(t, s, v);
    PutAt(s, key, v, i);
    if i < |s| {
      assert s[i] in s;
    }
  }

  lemma {:induction false} FirstInSlot(t: Table, s: seq<Value>, v: Value) returns (i: nat)
    ensures i <= |s| && (i < |s| ==> SameSlot(t, s[i], v))
    ensures forall j :: 0 <= j < i ==> !SameSlot(t, s[j], v)
  {
    i := 0;
    while i < |s| && !SameSlot(t, s[i], v)
      invariant i <= |s| && forall j :: 0 <= j < i ==> !SameSlot(t, s[j], v)
    {
      i := i + 1;
    }
  }

  /** A record is added to its own table as its port promises, and nothing else changes. */
  lemma RecordMeansWrite(m: Memory, t: Table, v: Value)
    requires !t.TLedger?
    ensures var r := MemoryStep(m, Record(t, v));
            && Wrote(t, Lookup(m.recs, t), Lookup(r.0.recs, t), v, r.1)
            && r.0.books == m.books && forall u: Table :: u != t ==> Lookup(r.0.recs, u) == Lookup(m.recs, u)
  {
    forall x ensures !MemoryKind(t).Append? ==> (SameKey(MemoryKind(t).key, x, v) <==> SameSlot(t, x, v)) {
      SlotIsKey(t, x, v);
    }
    if MemoryKind(t).Upsert? {
      PutReplaces(t, Lookup(m.recs, t), MemoryKind(t).key, v);
    }
  }

  /** An event goes into the ledger exactly when it is committed: as the last entry of its own scope, with the
      next number and the event's time. */
  lemma LogMeans(m: Memory, event: Value)
    requires HasScope(event)
    ensures var r := MemoryStep(m, Log(event));
            && (r.1 <==> Get(event, Status) == Enum(RevisionStatus, COMMITTED))
            && r.0.recs == m.recs
            && forall s :: Lookup(r.0.books, s) ==
                 Lookup(m.books, s) + if r.1 && InScope(event, s) then [NextEntry(|Lookup(m.books, s)|, event)] else []
  {
    var s := ScopeOf(event);
    assert InScope(event, s);
    assert forall u :: InScope(event, u) <==> u == s;
  }

  function NextEntry(n: nat, event: Value): Value {
    Obj(RevisionLedgerEntry,
        map[SequenceNo := Int(n), RevisionEventField := event, AppendedAt := Get(event, CreatedAt)])
  }

  // ----- the ledger over a run -----

  /** The event is committed and belongs to the scope. */
  predicate Enters(event: Value, s: Scope) {
    Get(event, Status) == Enum(RevisionStatus, COMMITTED) && InScope(event, s)
  }

  lemma {:induction false} CommittedForIs(events: seq<Value>, s: Scope)
    ensures Exactly(events, CommittedFor(events, s), e => Enters(e, s))
  {
    var test := e => Enters(e, s);
    if events == [] {
      NothingExactly(test);
    } else {
      var init, last := events[..|events| - 1], events[|events| - 1];
      CommittedForIs(init, s);
      assert events == init + [last];
      ExactlyAppend(init, CommittedFor(init, s), test, last);
      assert Contribution(last, s) == (if test(last) then [last] else []);
    }
  }

  /** The entry with its number, its event, and the event's time. */
  predicate IsEntry(entry: Value, n: nat, event: Value) {
    Get(entry, SequenceNo) == Int(n) && Get(entry, RevisionEventField) == event
    && Get(entry, AppendedAt) == Get(event, CreatedAt)
  }

  /** From an empty ledger: after any events, a scope's entries are its committed events, each once and in order,
      numbered from zero. */
  lemma LedgerMeans(events: seq<Value>, s: Scope) returns (entered: seq<Value>)
    requires forall e :: e in events ==> HasScope(e)
    ensures Exactly(events, entered, e => Enters(e, s))
    ensures var entries := Lookup(AppendAll(map[], events), s);
            |entries| == |entered| && forall i :: 0 <= i < |entries| ==> IsEntry(entries[i], i, entered[i])
  {
    entered := CommittedFor(events, s);
    CommittedForIs(events, s);
    LedgerRun(map[], events, s);
    EntriesAreEvents(s, Lookup(AppendAll(map[], events), s), entered);
  }

  lemma EntriesAreEvents(s: Scope, entries: seq<Value>, entered: seq<Value>)
    requires InOrder(s, entries) && Events(entries) == [] + entered
    ensures |entries| == |entered| && forall i :: 0 <= i < |entries| ==> IsEntry(entries[i], i, entered[i])
  {
    forall i | 0 <= i < |entries| ensures IsEntry(entries[i], i, entered[i]) {
      assert Entered(s, i, entries[i]) && Events(entries)[i] == entered[i];
    }
  }
}
