/** Python's mutable containers as heap objects, so that sharing one is visible. */
module Containers {

  /** A list, or a dict held as a value: one assignable container. */
  class Cell<T> {
    var v: T

    constructor (v: T)
      ensures this.v == v
    {
      this.v := v;
    }
  }

  /** A dict with its insertion order. */
  datatype Dict<!K(==, !new), V> = Dict(order: seq<K>, at: map<K, V>) {
    ghost predicate Valid() {
      && (forall k :: k in order <==> k in at)
      && (forall i, j :: 0 <= i < j < |order| ==> order[i] != order[j])
    }

    /** `values()`: in the order keys were first inserted. */
    function Values(): seq<V>
      requires Valid()
    {
      seq(|order|, i requires 0 <= i < |order| => at[order[i]])
    }

    /** `d[k] = v`: an existing key keeps its place. */
    function Set(k: K, v: V): (d: Dict<K, V>)
      requires Valid()
      ensures d.Valid()
      ensures d.at == at[k := v]
      ensures k !in at ==> d.Values() == Values() + [v]
      ensures forall i :: 0 <= i < |order| && order[i] == k ==> d.Values() == Values()[i := v]
    {
      if k in at then Dict(order, at[k := v])
      else
        var d := Dict(order + [k], at[k := v]);
        assert d.Valid();
        assert d.Values() == Values() + [v];
        d
    }
  }

  function EmptyDict<K(==, !new), V>(): (d: Dict<K, V>)
    ensures d.Valid() && d.Values() == []
  {
    Dict([], map[])
  }

  /** A dict of lists whose inner lists are mutated in place. */
  class DictOfLists<K(==), V> {
    var lists: map<K, Cell<seq<V>>>
    ghost var Repr: set<object>

    ghost predicate Valid()
      reads this, Repr
    {
      && this in Repr
      && (forall k :: k in lists ==> lists[k] in Repr)
      && (forall k, l :: k in lists && l in lists && k != l ==> lists[k] != lists[l])
    }

    ghost function Contents(): map<K, seq<V>>
      requires Valid()
      reads this, Repr
    {
      map k | k in lists :: lists[k].v
    }

    constructor ()
      ensures Valid() && fresh(Repr)
      ensures lists == map[] && Contents() == map[]
    {
      lists := map[];
      Repr := {this};
    }

    /** `setdefault(k, []).append(v)`. */
    method Append(k: K, v: V)
      requires Valid()
      modifies Repr
      ensures Valid() && fresh(Repr - old(Repr))
      ensures Contents() == old(Contents())[k := Lookup(old(Contents()), k) + [v]]
    {
      if k !in lists {
        var list := new Cell<seq<V>>([]);
        lists := lists[k := list];
        Repr := Repr + {list};
      }
      lists[k].v := lists[k].v + [v];
    }

    /** `get(k, [])`. */
    method Read(k: K) returns (s: seq<V>)
      requires Valid()
      ensures s == Lookup(Contents(), k)
    {
      s := if k in lists then lists[k].v else [];
    }

    /** `{k: list(v) for k, v in items()}`: no list of the copy is a list of the original. */
    method Copy() returns (c: DictOfLists<K, V>)
      requires Valid()
      ensures c.Valid() && fresh(c.Repr)
      ensures c.Contents() == Contents()
    {
      c := new DictOfLists<K, V>();
      var todo := lists.Keys;
      while todo != {}
        invariant c.Valid() && fresh(c.Repr)
        invariant todo <= lists.Keys
        invariant c.lists.Keys == lists.Keys - todo
        invariant forall k :: k in c.lists ==> c.lists[k].v == lists[k].v
        decreases todo
      {
        var k :| k in todo;
        var copy := new Cell<seq<V>>(lists[k].v);
        c.lists := c.lists[k := copy];
        c.Repr := c.Repr + {copy};
        todo := todo - {k};
      }
    }
  }

  function Lookup<K(==), V>(m: map<K, seq<V>>, k: K): seq<V> {
    if k in m then m[k] else []
  }
}
