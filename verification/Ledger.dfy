/** The revision ledger: per scope, a numbered list of committed events that only grows. */
module Ledger {
  import opened Domain
  import opened Tables
  import opened Containers

  type Books = map<Scope, seq<Value>>

  /** Space and subject are strings on every owned object. */
  predicate HasScope(v: Value) { Get(v, SpaceId).Str? && Get(v, SubjectId).Str? }

  function ScopeOf(v: Value): Scope
    requires HasScope(v)
  {
    Scope(Get(v, SpaceId).s, Get(v, SubjectId).s)
  }

  predicate Committed(event: Value) { Get(event, Status) == COMMITTED_STATUS }

  function MakeEntry(n: nat, event: Value): (entry: Value)
    ensures NumberOf(entry) == n && EventOf(entry) == event && Get(entry, AppendedAt) == Get(event, CreatedAt)
  {
    Obj(RevisionLedgerEntry,
        map[SequenceNo := Int(n), RevisionEventField := event, AppendedAt := Get(event, CreatedAt)])
  }

  function NumberOf(entry: Value): int {
    if Get(entry, SequenceNo).Int? then Get(entry, SequenceNo).i else -1
  }

  function EventOf(entry: Value): Value { Get(entry, RevisionEventField) }

  /** `RevisionEvent.committed`: refused on a committed event or without a target version,
      otherwise the same event with status and target set. */
  function Commit(event: Value, to: Value): Option<Value>
    requires event.Obj?
  {
    if Committed(event) || to == PyNone then None
    else Some(Obj(event.cls, event.fields[Status := COMMITTED_STATUS][ToModelVersionId := to]))
  }

  /** Committing happens once, sets the status and the target version, and changes nothing else. */
  lemma CommitIs(event: Value, to: Value)
    requires event.Obj?
    ensures Commit(event, to).Some? <==> !Committed(event) && to != PyNone
    ensures Commit(event, to).Some? ==>
              var c := Commit(event, to).value;
              && Committed(c) && Get(c, ToModelVersionId) == to && c.cls == event.cls
              && (forall k :: k != Status && k != ToModelVersionId ==> Get(c, k) == Get(event, k))
              && forall again :: Commit(c, again).None?
  {
  }

  function LedgerAppend(books: Books, event: Value): Option<Books>
    requires HasScope(event)
  {
    if !Committed(event) then None
    else
      var entries := Lookup(books, ScopeOf(event));
      Some(books[ScopeOf(event) := entries + [MakeEntry(|entries|, event)]])
  }

  /** An event and its commitment at the ledger: the one is refused, the other goes last in the same scope, and
      it cannot be committed a second time. */
  lemma CommitThenAppend(books: Books, event: Value, to: Value)
    requires event.Obj? && HasScope(event) && Commit(event, to).Some?
    ensures var c := Commit(event, to).value;
            && HasScope(c) && ScopeOf(c) == ScopeOf(event)
            && LedgerAppend(books, event).None? && LedgerAppend(books, c).Some?
            && Lookup(LedgerAppend(books, c).value, ScopeOf(event)) ==
               Lookup(books, ScopeOf(event)) + [MakeEntry(|Lookup(books, ScopeOf(event))|, c)]
            && forall again :: Commit(c, again).None?
  {
    CommitIs(event, to);
    var c := Commit(event, to).value;
    assert Get(c, SpaceId) == Get(event, SpaceId) && Get(c, SubjectId) == Get(event, SubjectId);
  }

  /** The entries numbered above `after`, by the filter the stores run. */
  function Since(entries: seq<Value>, after: int): seq<Value> {
    if entries == [] then [] else
    var last := entries[|entries| - 1];
    Since(entries[..|entries| - 1], after) + if NumberOf(last) > after then [last] else []
  }

  /** Entry i is number i, holds a committed event of this scope, and is stamped with its time. */
  predicate InOrder(s: Scope, entries: seq<Value>) {
    forall i :: 0 <= i < |entries| ==> Entered(s, i, entries[i])
  }

  predicate Entered(s: Scope, i: nat, entry: Value) {
    && NumberOf(entry) == i
    && Committed(EventOf(entry)) && OwnedBy(EventOf(entry), s)
    && Get(entry, AppendedAt) == Get(EventOf(entry), CreatedAt)
  }

  predicate BooksOk(books: Books) { forall s :: s in books ==> InOrder(s, books[s]) }

  function Events(entries: seq<Value>): seq<Value> {
    seq(|entries|, i requires 0 <= i < |entries| => EventOf(entries[i]))
  }

  /** The committed events of one scope, in order of arrival. */
  function CommittedFor(events: seq<Value>, s: Scope): seq<Value> {
    if events == [] then [] else CommittedFor(events[..|events| - 1], s) + Contribution(events[|events| - 1], s)
  }

  function Contribution(event: Value, s: Scope): seq<Value> {
    if Committed(event) && OwnedBy(event, s) then [event] else []
  }

  function Appended(books: Books, event: Value): Books
    requires HasScope(event)
  {
    var r := LedgerAppend(books, event);
    if r.Some? then r.value else books
  }

  function AppendAll(books: Books, events: seq<Value>): Books
    requires forall e :: e in events ==> HasScope(e)
  {
    if events == [] then books else Appended(AppendAll(books, events[..|events| - 1]), events[|events| - 1])
  }

  lemma AppendAt(books: Books, event: Value, s: Scope)
    requires HasScope(event) && InOrder(s, Lookup(books, s))
    ensures InOrder(s, Lookup(Appended(books, event), s))
    ensures Lookup(books, s) <= Lookup(Appended(books, event), s)
    ensures Events(Lookup(Appended(books, event), s)) == Events(Lookup(books, s)) + Contribution(event, s)
  {
    var before := Lookup(books, s);
    if Committed(event) && OwnedBy(event, s) {
      assert ScopeOf(event) == s;
      assert Lookup(Appended(books, event), s) == before + [MakeEntry(|before|, event)];
    } else {
      assert Lookup(Appended(books, event), s) == before;
    }
  }

  /** Over every run: numbering, commitment and ownership hold in every scope, what was written
      before is still there unchanged, and a scope's ledger is its committed events in order. */
  lemma {:induction false} LedgerRun(books: Books, events: seq<Value>, s: Scope)
    requires forall e :: e in events ==> HasScope(e)
    requires InOrder(s, Lookup(books, s))
    ensures InOrder(s, Lookup(AppendAll(books, events), s))
    ensures Lookup(books, s) <= Lookup(AppendAll(books, events), s)
    ensures Events(Lookup(AppendAll(books, events), s)) == Events(Lookup(books, s)) + CommittedFor(events, s)
  {
    if events == [] {
    } else {
      var init, event := events[..|events| - 1], events[|events| - 1];
      LedgerRun(books, init, s);
      AppendAt(AppendAll(books, init), event, s);
    }
  }

  /** Where the entries numbered above `after` start. */
  function SuffixStart(length: nat, after: int): (k: nat)
    ensures k <= length
  {
    if after < 0 then 0 else if after < length then after + 1 else length
  }

  lemma SinceAppend(init: seq<Value>, last: Value, after: int)
    ensures Since(init + [last], after) == Since(init, after) + if NumberOf(last) > after then [last] else []
  {
    assert (init + [last])[..|init|] == init;
  }

  lemma SuffixAppend(init: seq<Value>, last: Value, k: nat)
    requires k <= |init|
    ensures (init + [last])[k..] == init[k..] + [last]
    ensures (init + [last])[|init| + 1..] == []
  {
  }

  lemma InOrderPrefix(s: Scope, entries: seq<Value>)
    requires InOrder(s, entries) && entries != []
    ensures InOrder(s, entries[..|entries| - 1]) && NumberOf(entries[|entries| - 1]) == |entries| - 1
  {
    assert Entered(s, |entries| - 1, entries[|entries| - 1]);
  }

  lemma {:induction false} SinceFrom(s: Scope, entries: seq<Value>, after: int)
    requires InOrder(s, entries)
    ensures Since(entries, after) == entries[SuffixStart(|entries|, after)..]
  {
    if entries != [] {
      var init, last := entries[..|entries| - 1], entries[|entries| - 1];
      InOrderPrefix(s, entries);
      SinceFrom(s, init, after);
      assert entries == init + [last];
      SinceAppend(init, last, after);
      SuffixAppend(init, last, SuffixStart(|init|, after));
      if after >= |init| {
        assert SuffixStart(|entries|, after) == |entries| && Since(init, after) == [];
      } else {
        assert SuffixStart(|entries|, after) == SuffixStart(|init|, after);
      }
    }
  }

  /** `read_since(k)` is the suffix after entry k. */
  lemma {:induction false} SinceIsSuffix(s: Scope, entries: seq<Value>, after: int)
    requires InOrder(s, entries)
    ensures after < -1 ==> Since(entries, after) == entries
    ensures -1 <= after < |entries| ==> Since(entries, after) == entries[after + 1..]
    ensures after >= |entries| ==> Since(entries, after) == []
  {
    SinceFrom(s, entries, after);
  }
}
