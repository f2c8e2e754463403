/** Dicts of records keyed by some of the record's own columns, and the sequence of their values. */
module Keyed {
  import opened Domain
  import opened Tables
  import opened Containers

  type Key = map<Column, Value>

  function KeyOf(cols: set<Column>, v: Value): Key {
    map c | c in cols :: Get(v, FieldOf(c))
  }

  lemma SameKeyIsKeyOf(cols: set<Column>, a: Value, b: Value)
    ensures SameKey(cols, a, b) <==> KeyOf(cols, a) == KeyOf(cols, b)
  {
    if KeyOf(cols, a) == KeyOf(cols, b) {
      forall c | c in cols ensures Get(a, FieldOf(c)) == Get(b, FieldOf(c)) {
        assert KeyOf(cols, a)[c] == KeyOf(cols, b)[c];
      }
    }
  }

  ghost predicate KeyedBy(d: Dict<Key, Value>, cols: set<Column>) {
    d.Valid() && forall k :: k in d.at ==> KeyOf(cols, d.at[k]) == k
  }

  lemma {:induction false} PutAt(s: seq<Value>, cols: set<Column>, v: Value, i: nat)
    requires i <= |s|
    requires forall j :: 0 <= j < i ==> !SameKey(cols, s[j], v)
    requires i < |s| ==> SameKey(cols, s[i], v)
    ensures Put(s, cols, v) == if i < |s| then s[i := v] else s + [v]
  {
    if i > 0 {
      PutAt(s[1..], cols, v, i - 1);
      assert s == [s[0]] + s[1..];
    }
  }

  lemma KeysInOrder(d: Dict<Key, Value>, cols: set<Column>, v: Value, i: nat)
    requires KeyedBy(d, cols) && i < |d.order|
    ensures SameKey(cols, d.Values()[i], v) <==> d.order[i] == KeyOf(cols, v)
  {
    SameKeyIsKeyOf(cols, d.Values()[i], v);
  }

  /** A record is refused exactly when its key is taken. */
  lemma TakenIsRefused(d: Dict<Key, Value>, cols: set<Column>, v: Value)
    requires KeyedBy(d, cols)
    ensures KeyOf(cols, v) in d.at <==> Write(InsertOnly(cols), d.Values(), v) == None
  {
    var k, s := KeyOf(cols, v), d.Values();
    forall i | 0 <= i < |s| ensures SameKey(cols, s[i], v) <==> d.order[i] == k {
      KeysInOrder(d, cols, v, i);
    }
    if k in d.at {
      var i :| 0 <= i < |d.order| && d.order[i] == k;
      assert SameKey(cols, s[i], v);
    }
  }

  lemma SetKeepsKeys(d: Dict<Key, Value>, cols: set<Column>, v: Value)
    requires KeyedBy(d, cols)
    ensures KeyedBy(d.Set(KeyOf(cols, v), v), cols)
  {
  }

  /** Assigning into the dict replaces or appends exactly as the sequence write does. */
  lemma SetIsPut(d: Dict<Key, Value>, cols: set<Column>, v: Value)
    requires KeyedBy(d, cols)
    ensures d.Set(KeyOf(cols, v), v).Values() == Put(d.Values(), cols, v)
  {
    var k, s := KeyOf(cols, v), d.Values();
    forall i | 0 <= i < |s| ensures SameKey(cols, s[i], v) <==> d.order[i] == k {
      KeysInOrder(d, cols, v, i);
    }
    if k in d.at {
      var i :| 0 <= i < |d.order| && d.order[i] == k;
      PutAt(s, cols, v, i);
    } else {
      PutAt(s, cols, v, |s|);
    }
  }

  ghost predicate IsKey(cond: Cond, k: Key) {
    cond.Keys == k.Keys && forall c :: c in cond ==> k[c] == Str(cond[c])
  }

  lemma {:induction false} SelectNone(s: seq<Value>, cond: Cond)
    requires forall x :: x in s ==> !Matches(x, cond)
    ensures Select(s, cond) == []
  {
    if s != [] {
      SelectNone(s[..|s| - 1], cond);
    }
  }

  lemma {:induction false} SelectOne(s: seq<Value>, cond: Cond, i: nat)
    requires i < |s| && Matches(s[i], cond)
    requires forall j :: 0 <= j < |s| && j != i ==> !Matches(s[j], cond)
    ensures Select(s, cond) == [s[i]]
  {
    if i == |s| - 1 {
      SelectNone(s[..|s| - 1], cond);
    } else {
      SelectOne(s[..|s| - 1], cond, i);
    }
  }

  lemma MatchesIsKey(cols: set<Column>, cond: Cond, k: Key, v: Value)
    requires IsKey(cond, k) && k.Keys == cols
    ensures Matches(v, cond) <==> KeyOf(cols, v) == k
  {
    if Matches(v, cond) {
      assert KeyOf(cols, v) == k;
    } else {
      var c :| c in cond && Get(v, FieldOf(c)) != Str(cond[c]);
      assert KeyOf(cols, v)[c] != k[c];
    }
  }

  /** A dict lookup is the query for its key. */
  lemma LookupIsSelect(d: Dict<Key, Value>, cols: set<Column>, cond: Cond, k: Key)
    requires KeyedBy(d, cols) && IsKey(cond, k) && k.Keys == cols
    ensures Select(d.Values(), cond) == if k in d.at then [d.at[k]] else []
  {
    var s := d.Values();
    forall i | 0 <= i < |s| ensures Matches(s[i], cond) <==> d.order[i] == k {
      MatchesIsKey(cols, cond, k, s[i]);
      assert KeyOf(cols, s[i]) == d.order[i];
    }
    if k in d.at {
      var i :| 0 <= i < |d.order| && d.order[i] == k;
      SelectOne(s, cond, i);
    } else {
      SelectNone(s, cond);
    }
  }
}
