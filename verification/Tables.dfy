/** What the repository ports promise, on insertion-ordered sequences of records.

    Each port holds records of one table.  `Column` names the attributes that stores filter
    by; a query is a conjunction of column equalities, answered in insertion order. */
module Tables {
  import opened Domain

  datatype Table =
    | TEvidence | TInference | THypotheses | TPredictions | TInquiries | TWorldModels | TCurrentPointer
    | TLedger | TAnomalies | TProvenance | TRecognition | TDependencies

  datatype Column = CId | CRecordId | CHypothesisId | CVersion | CSpace | CSubject | CFromRef | CToRef | CSeq

  /** The attribute a column repeats. */
  function FieldOf(c: Column): Field {
    match c
    case CId => Id
    case CRecordId => RecordId
    case CHypothesisId => HypothesisId
    case CVersion => ModelVersionId
    case CSpace => SpaceId
    case CSubject => SubjectId
    case CFromRef => FromRef
    case CToRef => ToRef
    case CSeq => SequenceNo
  }

  type Cond = map<Column, string>

  predicate Matches(v: Value, cond: Cond) {
    forall c :: c in cond ==> Get(v, FieldOf(c)) == Str(cond[c])
  }

  predicate SameKey(key: set<Column>, a: Value, b: Value) {
    forall c :: c in key ==> Get(a, FieldOf(c)) == Get(b, FieldOf(c))
  }

  datatype Scope = Scope(space: string, subject: string)

  function ScopeCond(s: Scope): Cond { map[CSpace := s.space, CSubject := s.subject] }

  predicate OwnedBy(v: Value, s: Scope) {
    Get(v, SpaceId) == Str(s.space) && Get(v, SubjectId) == Str(s.subject)
  }

  /** The records a query selects, oldest first. */
  function Select(s: seq<Value>, cond: Cond): seq<Value> {
    if s == [] then []
    else Select(s[..|s| - 1], cond) + if Matches(s[|s| - 1], cond) then [s[|s| - 1]] else []
  }

  lemma SelectAppend(s: seq<Value>, v: Value, cond: Cond)
    ensures Select(s + [v], cond) == Select(s, cond) + if Matches(v, cond) then [v] else []
  {
    assert (s + [v])[..|s|] == s;
  }

  /** The selected records are those at the matching positions, each once and in order. */
  lemma {:induction false} SelectIs(s: seq<Value>, cond: Cond) returns (at: seq<nat>)
    ensures PicksOut(s, Select(s, cond), at)
    ensures forall i :: 0 <= i < |s| ==> (Matches(s[i], cond) <==> i in at)
  {
    at := [];
    if s != [] {
      var init, last := s[..|s| - 1], s[|s| - 1];
      var before := SelectIs(init, cond);
      assert s == init + [last] && (init + [last])[..|init|] == init;
      SelectAppend(init, last, cond);
      at := PickOne(init, Select(init, cond), before, last, Matches(last, cond));
      forall i | 0 <= i < |s| ensures Matches(s[i], cond) <==> i in at {
        assert i < |init| ==> s[i] == init[i];
      }
    }
  }

  lemma SplitLast<T>(s: seq<T>)
    requires s != []
    ensures s == s[..|s| - 1] + [s[|s| - 1]]
  {
  }

  /** The picked elements stand at these positions, which rise. */
  ghost predicate PicksOut<T>(s: seq<T>, picked: seq<T>, at: seq<nat>) {
    && |at| == |picked|
    && (forall k :: 0 <= k < |at| ==> at[k] < |s| && picked[k] == s[at[k]])
    && (forall j, k :: 0 <= j < k < |at| ==> at[j] < at[k])
  }

  lemma PickOne<T>(s: seq<T>, picked: seq<T>, at: seq<nat>, x: T, taken: bool) returns (after: seq<nat>)
    requires PicksOut(s, picked, at)
    ensures PicksOut(s + [x], picked + if taken then [x] else [], after)
    ensures forall i :: i in after <==> i in at || (taken && i == |s|)
  {
    after := at + if taken then [|s|] else [];
  }

  /** The oldest (newest) selected record, if any. */
  function First(s: seq<Value>): Option<Value> { if s == [] then None else Some(s[0]) }
  function Last(s: seq<Value>): Option<Value> { if s == [] then None else Some(s[|s| - 1]) }

  /** The distinct values of an attribute, in the order they first occur. */
  function FirstSeen(s: seq<Value>, f: Field): seq<Value> {
    if s == [] then [] else
    var order, key := FirstSeen(s[..|s| - 1], f), Get(s[|s| - 1], f);
    if key in order then order else order + [key]
  }

  /** The records carrying one value of an attribute: a lineage. */
  function Group(s: seq<Value>, f: Field, key: Value): seq<Value> {
    if s == [] then []
    else Group(s[..|s| - 1], f, key) + if Get(s[|s| - 1], f) == key then [s[|s| - 1]] else []
  }

  lemma FirstSeenAppend(s: seq<Value>, f: Field, v: Value)
    ensures FirstSeen(s + [v], f) ==
            if Get(v, f) in FirstSeen(s, f) then FirstSeen(s, f) else FirstSeen(s, f) + [Get(v, f)]
  {
    assert (s + [v])[..|s|] == s;
  }

  lemma GroupAppend(s: seq<Value>, f: Field, key: Value, v: Value)
    ensures Group(s + [v], f, key) == Group(s, f, key) + if Get(v, f) == key then [v] else []
  {
    assert (s + [v])[..|s|] == s;
  }

  /** One record per lineage, its latest, in first-seen order. */
  ghost predicate IsLatestPer(s: seq<Value>, f: Field, r: seq<Value>) {
    var order := FirstSeen(s, f);
    |r| == |order| && forall i :: 0 <= i < |r| ==> Last(Group(s, f, order[i])) == Some(r[i])
  }

  function LatestPer(s: seq<Value>, f: Field): (r: seq<Value>)
    ensures IsLatestPer(s, f, r)
  {
    FirstSeenIsDistinct(s, f);
    var order := FirstSeen(s, f);
    seq(|order|, i requires 0 <= i < |order| && Group(s, f, order[i]) != [] => Last(Group(s, f, order[i])).value)
  }

  lemma {:induction false} FirstSeenIsDistinct(s: seq<Value>, f: Field)
    ensures forall i, j :: 0 <= i < j < |FirstSeen(s, f)| ==> FirstSeen(s, f)[i] != FirstSeen(s, f)[j]
    ensures forall x :: x in s ==> Get(x, f) in FirstSeen(s, f)
    ensures forall k :: k in FirstSeen(s, f) ==> Group(s, f, k) != []
  {
    if s != [] {
      FirstSeenIsDistinct(s[..|s| - 1], f);
    }
  }

  lemma {:induction false} GroupIsSelected(s: seq<Value>, f: Field, key: Value, x: Value)
    ensures x in Group(s, f, key) <==> x in s && Get(x, f) == key
  {
    if s != [] {
      GroupIsSelected(s[..|s| - 1], f, key, x);
      assert s == s[..|s| - 1] + [s[|s| - 1]];
    }
  }

  /** Latest-per-lineage listings are determined by the order and by each lineage's last record. */
  lemma LatestPerUnique(s: seq<Value>, f: Field, r: seq<Value>, t: seq<Value>)
    requires IsLatestPer(s, f, r) && IsLatestPer(s, f, t)
    ensures r == t
  {
    forall i | 0 <= i < |r| ensures r[i] == t[i] {
      assert Some(r[i]) == Some(t[i]);
    }
  }

  /** Replace the record with the same key where it stands, or append. */
  function Put(s: seq<Value>, key: set<Column>, v: Value): seq<Value> {
    if s == [] then [v]
    else if SameKey(key, s[0], v) then [v] + s[1..]
    else [s[0]] + Put(s[1..], key, v)
  }

  /** How a table takes a write. */
  datatype Kind =
    | InsertOnly(key: set<Column>)   // a second record under the key is refused
    | Append                         // every record is kept
    | Upsert(key: set<Column>)       // the record under the key is replaced

  function Write(k: Kind, s: seq<Value>, v: Value): Option<seq<Value>> {
    match k
    case InsertOnly(key) => if exists x :: x in s && SameKey(key, x, v) then None else Some(s + [v])
    case Append => Some(s + [v])
    case Upsert(key) => Some(Put(s, key, v))
  }
}
