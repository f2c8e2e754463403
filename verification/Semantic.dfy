/** The two semantic-state stores that keep a dict of lists: lineages and statement versions. */
module Semantic {
  import opened Domain
  import opened Tables
  import opened Containers

  datatype HypothesisLineage = HypothesisLineage(
    hypothesisId: string, scope: Scope, signatureSubject: string, attribution: string, createdAt: string)

  /** The retrieval bound: scope, signature subject and voice, and never the claim class. */
  datatype Bound = Bound(scope: Scope, signatureSubject: string, attribution: string)

  function BoundOf(l: HypothesisLineage): Bound { Bound(l.scope, l.signatureSubject, l.attribution) }

  /** The ids a scan of every lineage would find under one bound, oldest first. */
  function Scan(s: seq<HypothesisLineage>, b: Bound): seq<string> {
    if s == [] then []
    else Scan(s[..|s| - 1], b) + if BoundOf(s[|s| - 1]) == b then [s[|s| - 1].hypothesisId] else []
  }

  lemma ScanAppend(s: seq<HypothesisLineage>, l: HypothesisLineage, b: Bound)
    ensures Scan(s + [l], b) == Scan(s, b) + if BoundOf(l) == b then [l.hypothesisId] else []
  {
    assert (s + [l])[..|s|] == s;
  }

  /** The ids of the lineages at exactly the positions that have the bound's scope, signature subject and voice,
      each once and in order. */
  ghost predicate FoundAt(s: seq<HypothesisLineage>, b: Bound, ids: seq<string>, at: seq<nat>) {
    && |at| == |ids|
    && (forall k :: 0 <= k < |at| ==> at[k] < |s| && ids[k] == s[at[k]].hypothesisId)
    && (forall j, k :: 0 <= j < k < |at| ==> at[j] < at[k])
    && forall i :: 0 <= i < |s| ==>
         (i in at <==> s[i].scope == b.scope && s[i].signatureSubject == b.signatureSubject
                       && s[i].attribution == b.attribution)
  }

  lemma {:induction false} ScanIs(s: seq<HypothesisLineage>, b: Bound) returns (at: seq<nat>)
    ensures FoundAt(s, b, Scan(s, b), at)
  {
    at := [];
    if s != [] {
      var init, last := s[..|s| - 1], s[|s| - 1];
      var before := ScanIs(init, b);
      assert s == init + [last];
      var found := last.scope == b.scope && last.signatureSubject == b.signatureSubject
                   && last.attribution == b.attribution;
      at := before + if found then [|init|] else [];
      ScanAppend(init, last, b);
      FoundOne(init, b, Scan(init, b), before, last);
    }
  }

  lemma FoundOne(s: seq<HypothesisLineage>, b: Bound, ids: seq<string>, at: seq<nat>, l: HypothesisLineage)
    requires FoundAt(s, b, ids, at)
    ensures var found := l.scope == b.scope && l.signatureSubject == b.signatureSubject
                         && l.attribution == b.attribution;
            FoundAt(s + [l], b, ids + if found then [l.hypothesisId] else [], at + if found then [|s|] else [])
  {
  }

  function InScope(s: seq<HypothesisLineage>, scope: Scope): seq<HypothesisLineage> {
    if s == [] then []
    else InScope(s[..|s| - 1], scope) + if s[|s| - 1].scope == scope then [s[|s| - 1]] else []
  }

  /** The listed lineages are those at the positions of the scope, each once and in order. */
  lemma {:induction false} InScopeIs(s: seq<HypothesisLineage>, scope: Scope) returns (at: seq<nat>)
    ensures PicksOut(s, InScope(s, scope), at)
    ensures forall i :: 0 <= i < |s| ==> (s[i].scope == scope <==> i in at)
  {
    at := [];
    if s != [] {
      var init, last := s[..|s| - 1], s[|s| - 1];
      var before := InScopeIs(init, scope);
      assert s == init + [last];
      at := PickOne(init, InScope(init, scope), before, last, last.scope == scope);
      forall i | 0 <= i < |s| ensures s[i].scope == scope <==> i in at {
        assert i < |init| ==> s[i] == init[i];
      }
    }
  }

  type Lineages = Dict<string, HypothesisLineage>

  ghost predicate ById(d: Lineages) { d.Valid() && forall k :: k in d.at ==> d.at[k].hypothesisId == k }

  ghost predicate Indexed(d: Lineages, index: map<Bound, seq<string>>)
    requires d.Valid()
  {
    forall b :: Lookup(index, b) == Scan(d.Values(), b)
  }

  /** Adding a new lineage and appending its id under its bound keeps the index equal to the scan. */
  lemma AddKeepsIndex(d: Lineages, index: map<Bound, seq<string>>, l: HypothesisLineage)
    requires ById(d) && Indexed(d, index) && l.hypothesisId !in d.at
    ensures var after := d.Set(l.hypothesisId, l);
            ById(after) && Indexed(after, index[BoundOf(l) := Lookup(index, BoundOf(l)) + [l.hypothesisId]])
  {
    var after := d.Set(l.hypothesisId, l);
    forall b
      ensures Lookup(index[BoundOf(l) := Lookup(index, BoundOf(l)) + [l.hypothesisId]], b) == Scan(after.Values(), b)
    {
      ScanAppend(d.Values(), l, b);
    }
  }

  lemma IdsAreTaken(d: Lineages, l: HypothesisLineage)
    requires ById(d)
    ensures l.hypothesisId in d.at <==> exists x :: x in d.Values() && x.hypothesisId == l.hypothesisId
  {
    if l.hypothesisId in d.at {
      var i :| 0 <= i < |d.order| && d.order[i] == l.hypothesisId;
      assert d.Values()[i] in d.Values();
    }
    if x :| x in d.Values() && x.hypothesisId == l.hypothesisId {
      var i :| 0 <= i < |d.order| && d.Values()[i] == x;
      assert d.order[i] in d.at;
    }
  }

  /** A lineage of one scope is invisible to every retrieval bound and every listing of another. */
  lemma LineageIsolation(s: seq<HypothesisLineage>, l: HypothesisLineage, b: Bound)
    requires l.scope != b.scope
    ensures Scan(s + [l], b) == Scan(s, b) && InScope(s + [l], b.scope) == InScope(s, b.scope)
  {
    ScanAppend(s, l, b);
    assert (s + [l])[..|s|] == s;
  }

  datatype LineageToken = LineageToken(byId: Cell<Lineages>, byKey: DictOfLists<Bound, string>) {
    ghost predicate Holds(s: seq<HypothesisLineage>)
      reads byId, byKey, byKey.Repr
    {
      && ById(byId.v) && byId.v.Values() == s
      && byKey.Valid() && byId !in byKey.Repr && Indexed(byId.v, byKey.Contents())
    }
  }

  class InMemoryHypothesisLineageStore {
    var byId: Cell<Lineages>
    var byKey: DictOfLists<Bound, string>

    /** The index always agrees with a scan of the lineages themselves. */
    ghost predicate Valid()
      reads this, byId, byKey, byKey.Repr
    {
      && byKey.Valid() && this !in byKey.Repr && byId !in byKey.Repr
      && ById(byId.v) && Indexed(byId.v, byKey.Contents())
    }

    ghost function Contents(): seq<HypothesisLineage>
      requires Valid()
      reads this, byId, byKey, byKey.Repr
    {
      byId.v.Values()
    }

    constructor ()
      ensures Valid() && Contents() == [] && fresh(byId) && fresh(byKey.Repr)
    {
      byId := new Cell<Lineages>(EmptyDict());
      byKey := new DictOfLists<Bound, string>();
    }

    /** A taken id is refused and changes nothing. */
    method Add(l: HypothesisLineage) returns (ok: bool)
      requires Valid()
      modifies byId, byKey.Repr
      ensures Valid() && fresh(byKey.Repr - old(byKey.Repr))
      ensures ok <==> forall x :: x in old(Contents()) ==> x.hypothesisId != l.hypothesisId
      ensures Contents() == if ok then old(Contents()) + [l] else old(Contents())
      ensures !ok ==> byKey.Contents() == old(byKey.Contents())
    {
      IdsAreTaken(byId.v, l);
      if l.hypothesisId in byId.v.at {
        return false;
      }
      Insert(l);
      ok := true;
    }

    method Insert(l: HypothesisLineage)
      requires Valid() && l.hypothesisId !in byId.v.at
      modifies byId, byKey.Repr
      ensures Valid() && fresh(byKey.Repr - old(byKey.Repr))
      ensures Contents() == old(Contents()) + [l]
    {
      AddKeepsIndex(byId.v, byKey.Contents(), l);
      byId.v := byId.v.Set(l.hypothesisId, l);
      byKey.Append(BoundOf(l), l.hypothesisId);
    }

    method FindByKey(b: Bound) returns (ids: seq<string>)
      requires Valid()
      ensures ids == Scan(Contents(), b)
      ensures exists at :: FoundAt(Contents(), b, ids, at)
    {
      ids := byKey.Read(b);
      ghost var at := ScanIs(Contents(), b);
    }

    method ListForSubject(scope: Scope) returns (r: seq<HypothesisLineage>)
      requires Valid()
      ensures r == InScope(Contents(), scope)
    {
      var all := byId.v.Values();
      r := [];
      for i := 0 to |all|
        invariant r == InScope(all[..i], scope)
      {
        assert all[..i + 1][..i] == all[..i];
        if all[i].scope == scope {
          r := r + [all[i]];
        }
      }
      assert all[..|all|] == all;
    }

    method Snapshot() returns (token: LineageToken)
      requires Valid()
      ensures fresh(token.byId) && fresh(token.byKey.Repr) && token.Holds(Contents())
    {
      var ids := new Cell<Lineages>(byId.v);
      var index := byKey.Copy();
      token := LineageToken(ids, index);
    }

    method Restore(token: LineageToken, ghost s: seq<HypothesisLineage>)
      requires token.Holds(s) && this !in token.byKey.Repr
      modifies this
      ensures Valid() && Contents() == s && fresh(byId) && fresh(byKey.Repr)
    {
      var index := token.byKey.Copy();
      assert index.Contents() == token.byKey.Contents();
      byId := new Cell<Lineages>(token.byId.v);
      byKey := index;
    }
  }

  datatype StatementVersion = StatementVersion(
    id: string, hypothesisId: string, statement: string, supersedes: Option<string>)

  /** No lineage has an empty history, and every version is filed under its own lineage. */
  ghost predicate Filed(m: map<string, seq<StatementVersion>>) {
    forall k :: k in m ==> m[k] != [] && forall v :: v in m[k] ==> v.hypothesisId == k
  }

  datatype StatementToken = StatementToken(byLineage: DictOfLists<string, StatementVersion>) {
    ghost predicate Holds(m: map<string, seq<StatementVersion>>)
      reads byLineage, byLineage.Repr
    {
      byLineage.Valid() && byLineage.Contents() == m && Filed(m)
    }
  }

  class InMemoryStatementVersionStore {
    var byLineage: DictOfLists<string, StatementVersion>

    ghost predicate Valid()
      reads this, byLineage, byLineage.Repr
    {
      byLineage.Valid() && this !in byLineage.Repr && Filed(byLineage.Contents())
    }

    ghost function Contents(): map<string, seq<StatementVersion>>
      requires Valid()
      reads this, byLineage, byLineage.Repr
    {
      byLineage.Contents()
    }

    constructor ()
      ensures Valid() && Contents() == map[] && fresh(byLineage.Repr)
    {
      byLineage := new DictOfLists<string, StatementVersion>();
    }

    method AppendVersion(v: StatementVersion)
      requires Valid()
      modifies byLineage.Repr
      ensures Valid() && fresh(byLineage.Repr - old(byLineage.Repr))
      ensures Contents() == old(Contents())[v.hypothesisId := Lookup(old(Contents()), v.hypothesisId) + [v]]
    {
      byLineage.Append(v.hypothesisId, v);
    }

    /** Every version, oldest first. */
    method History(hypothesisId: string) returns (r: seq<StatementVersion>)
      requires Valid()
      ensures r == Lookup(Contents(), hypothesisId)
      ensures forall v :: v in r ==> v.hypothesisId == hypothesisId
    {
      r := byLineage.Read(hypothesisId);
    }

    method Current(hypothesisId: string) returns (r: Option<StatementVersion>)
      requires Valid()
      ensures r == var h := Lookup(Contents(), hypothesisId); if h == [] then None else Some(h[|h| - 1])
    {
      var versions := byLineage.Read(hypothesisId);
      r := if versions == [] then None else Some(versions[|versions| - 1]);
    }

    method Snapshot() returns (token: StatementToken)
      requires Valid()
      ensures fresh(token.byLineage.Repr) && token.Holds(Contents())
    {
      var copy := byLineage.Copy();
      token := StatementToken(copy);
    }

    method Restore(token: StatementToken, ghost m: map<string, seq<StatementVersion>>)
      requires token.Holds(m) && this !in token.byLineage.Repr
      modifies this
      ensures Valid() && Contents() == m && fresh(byLineage.Repr)
    {
      byLineage := token.byLineage.Copy();
    }
  }
}
