/** Request-scoped participant labels: what a model may name, and how it is read back. */
module Participants {
  import opened Domain
  import opened Texts

  datatype Entry = Entry(name: string, participant: string)

  datatype ParticipantVocabulary = ParticipantVocabulary(requestId: string, entries: seq<Entry>)

  /** `{request_id}::P{i}`. */
  function Label(requestId: string, i: nat): string { requestId + "::P" + Decimal(i) }

  /** `{transcript_id}:{index}`. */
  function RequestId(transcriptId: string, index: int): string { transcriptId + ":" + Number(index) }

  function Build(requestId: string, authorized: seq<string>): ParticipantVocabulary {
    var roster := SortedDistinct(authorized);
    ParticipantVocabulary(requestId, seq(|roster|, i requires 0 <= i < |roster| =>
        Entry(Label(requestId, i + 1), roster[i])))
  }

  predicate Offers(v: ParticipantVocabulary, name: string) {
    exists i :: 0 <= i < |v.entries| && v.entries[i].name == name
  }

  predicate Knows(v: ParticipantVocabulary, participant: string) {
    exists i :: 0 <= i < |v.entries| && v.entries[i].participant == participant
  }

  /** The first entry for the participant. */
  function LabelFor(entries: seq<Entry>, participant: string): Option<string> {
    if entries == [] then None
    else if entries[0].participant == participant then Some(entries[0].name)
    else LabelFor(entries[1..], participant)
  }

  /** The first entry for the label; `None` is the governed rejection. */
  function Resolve(entries: seq<Entry>, name: string): Option<string> {
    if entries == [] then None
    else if entries[0].name == name then Some(entries[0].participant)
    else Resolve(entries[1..], name)
  }

  /** A label names one request and one position: nothing about the request id can fake the rest. */
  lemma LabelInjective(r: string, i: nat, s: string, j: nat)
    ensures Label(r, i) == Label(s, j) ==> r == s && i == j
  {
    if Label(r, i) == Label(s, j) {
      assert (r + "::P")[|r| + 2] == 'P' && (s + "::P")[|s| + 2] == 'P';
      OneCut(IsDigit, r + "::P", Decimal(i), s + "::P", Decimal(j));
      DecimalInjective(i, j);
      assert r == (r + "::P")[..|r + "::P"| - 3] && s == (s + "::P")[..|s + "::P"| - 3];
    }
  }

  /** A request id names one transcript and one interaction, colons in the transcript id or not. */
  lemma RequestIdInjective(t: string, i: int, u: string, j: int)
    ensures RequestId(t, i) == RequestId(u, j) ==> t == u && i == j
  {
    if RequestId(t, i) == RequestId(u, j) {
      assert (t + ":")[|t|] == ':' && (u + ":")[|u|] == ':';
      NumberChars(i);
      NumberChars(j);
      OneCut((c: char) => c != ':', t + ":", Number(i), u + ":", Number(j));
      NumberInjective(i, j);
      assert t == (t + ":")[..|t + ":"| - 1] && u == (u + ":")[..|u + ":"| - 1];
    }
  }

  /** The vocabulary depends on the set of authorized participants, not on order or repetition. */
  lemma DependsOnSet(requestId: string, a: seq<string>, b: seq<string>)
    requires forall p :: p in a <==> p in b
    ensures Build(requestId, a) == Build(requestId, b)
  {
    SortedDistinctIs(a);
    SortedDistinctIs(b);
    AscendingUnique(SortedDistinct(a), SortedDistinct(b));
  }

  lemma RosterIs(requestId: string, authorized: seq<string>, p: string)
    ensures Knows(Build(requestId, authorized), p) <==> p in authorized
  {
    var v, roster := Build(requestId, authorized), SortedDistinct(authorized);
    SortedDistinctIs(authorized);
    if p in roster {
      var i :| 0 <= i < |roster| && roster[i] == p;
      assert v.entries[i].participant == p;
    }
  }

  lemma EntryAt(requestId: string, authorized: seq<string>, i: nat)
    requires i < |Build(requestId, authorized).entries|
    ensures Build(requestId, authorized).entries[i].name == Label(requestId, i + 1)
  {
  }

  /** No two entries share a label, and no two a participant. */
  lemma EntriesDistinct(requestId: string, authorized: seq<string>, i: nat, j: nat)
    requires i < j < |Build(requestId, authorized).entries|
    ensures Build(requestId, authorized).entries[i].name != Build(requestId, authorized).entries[j].name
    ensures Build(requestId, authorized).entries[i].participant != Build(requestId, authorized).entries[j].participant
  {
    SortedDistinctIs(authorized);
    LessIrreflexive(SortedDistinct(authorized)[i]);
    EntryAt(requestId, authorized, i);
    EntryAt(requestId, authorized, j);
    LabelInjective(requestId, i + 1, requestId, j + 1);
  }

  lemma {:induction false} FindsFirst(entries: seq<Entry>, i: nat)
    requires i < |entries|
    ensures (forall j :: 0 <= j < i ==> entries[j].name != entries[i].name) ==>
              Resolve(entries, entries[i].name) == Some(entries[i].participant)
    ensures (forall j :: 0 <= j < i ==> entries[j].participant != entries[i].participant) ==>
              LabelFor(entries, entries[i].participant) == Some(entries[i].name)
  {
    if i > 0 {
      FindsFirst(entries[1..], i - 1);
    }
  }

  lemma {:induction false} FindsNone(entries: seq<Entry>, x: string)
    ensures Resolve(entries, x).Some? <==> exists i :: 0 <= i < |entries| && entries[i].name == x
    ensures LabelFor(entries, x).Some? <==> exists i :: 0 <= i < |entries| && entries[i].participant == x
  {
    if entries != [] {
      FindsNone(entries[1..], x);
      assert forall i :: 1 <= i < |entries| ==> entries[i] == entries[1..][i - 1];
      assert forall i :: 0 <= i < |entries[1..]| ==> entries[1..][i] == entries[i + 1];
    }
  }

  /** On the roster, reading back what was minted returns the participant; off it, there is no label. */
  lemma ResolveUndoesLabelFor(requestId: string, authorized: seq<string>, p: string)
    ensures var v := Build(requestId, authorized);
            && (LabelFor(v.entries, p).Some? <==> p in authorized)
            && (p in authorized ==> Resolve(v.entries, LabelFor(v.entries, p).value) == Some(p))
  {
    var v := Build(requestId, authorized);
    RosterIs(requestId, authorized, p);
    FindsNone(v.entries, p);
    if p in authorized {
      var i :| 0 <= i < |v.entries| && v.entries[i].participant == p;
      forall j | 0 <= j < i
        ensures v.entries[j].name != v.entries[i].name && v.entries[j].participant != v.entries[i].participant
      {
        EntriesDistinct(requestId, authorized, j, i);
      }
      FindsFirst(v.entries, i);
    }
  }

  /** A label resolves exactly when this request offered it, and only to someone authorized. */
  lemma ResolvesOnlyOffered(requestId: string, authorized: seq<string>, name: string)
    ensures var v := Build(requestId, authorized);
            && (Resolve(v.entries, name).Some? <==> Offers(v, name))
            && (Resolve(v.entries, name).Some? ==> Resolve(v.entries, name).value in authorized)
  {
    var v := Build(requestId, authorized);
    FindsNone(v.entries, name);
    if Offers(v, name) {
      var i :| 0 <= i < |v.entries| && v.entries[i].name == name;
      forall j | 0 <= j < i ensures v.entries[j].name != v.entries[i].name {
        EntriesDistinct(requestId, authorized, j, i);
      }
      FindsFirst(v.entries, i);
      RosterIs(requestId, authorized, v.entries[i].participant);
    }
  }

  /** The label of the i-th participant, counting from one. */
  predicate IsLabel(requestId: string, i: nat, name: string) { name == requestId + "::P" + Decimal(i) }

  /** Labels are numbered from one over the sorted roster, and each is read back as the participant it stands for. */
  lemma LabelReads(requestId: string, authorized: seq<string>, name: string)
    ensures var v, roster := Build(requestId, authorized), SortedDistinct(authorized);
            && |v.entries| == |roster|
            && (Offers(v, name) <==> exists i :: 1 <= i <= |roster| && IsLabel(requestId, i, name))
            && forall i :: 1 <= i <= |roster| && IsLabel(requestId, i, name) ==>
                 Resolve(v.entries, name) == Some(roster[i - 1])
  {
    var v, roster := Build(requestId, authorized), SortedDistinct(authorized);
    forall i | 0 <= i < |roster|
      ensures IsLabel(requestId, i + 1, v.entries[i].name)
      ensures Resolve(v.entries, v.entries[i].name) == Some(roster[i])
    {
      EntryAt(requestId, authorized, i);
      forall j | 0 <= j < i ensures v.entries[j].name != v.entries[i].name {
        EntriesDistinct(requestId, authorized, j, i);
      }
      FindsFirst(v.entries, i);
    }
    if Offers(v, name) {
      var i :| 0 <= i < |v.entries| && v.entries[i].name == name;
      assert IsLabel(requestId, i + 1, name);
    }
    forall i | 1 <= i <= |roster| && IsLabel(requestId, i, name) ensures v.entries[i - 1].name == name {
      assert IsLabel(requestId, i - 1 + 1, v.entries[i - 1].name);
    }
  }

  /** A label minted for one interaction is refused by every other request, whatever its roster. */
  lemma RefusedElsewhere(t: string, i: int, a: seq<string>, u: string, j: int, b: seq<string>, name: string)
    requires t != u || i != j
    requires Offers(Build(RequestId(t, i), a), name)
    ensures Resolve(Build(RequestId(u, j), b).entries, name) == None
  {
    var v, w := Build(RequestId(t, i), a), Build(RequestId(u, j), b);
    RequestIdInjective(t, i, u, j);
    ResolvesOnlyOffered(RequestId(u, j), b, name);
    if Offers(w, name) {
      var m :| 0 <= m < |v.entries| && v.entries[m].name == name;
      var n :| 0 <= n < |w.entries| && w.entries[n].name == name;
      EntryAt(RequestId(t, i), a, m);
      EntryAt(RequestId(u, j), b, n);
      LabelInjective(RequestId(t, i), m + 1, RequestId(u, j), n + 1);
    }
  }
}
