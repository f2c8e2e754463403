/** The registry of test cases: ids that are always new, whatever was saved before. */
module Registry {
  import opened Domain
  import opened Texts

  const DEFAULT_SUBJECT: string := "review-subject"

  datatype Proposal = Proposal(hypothesisId: string, statement: string, initialSupport: real)

  datatype EvidenceSpec = EvidenceSpec(
    content: string, evidenceClass: string, reliability: real, classificationConfidence: real, source: string,
    provenanceConfidence: real, classificationStatus: string, metadata: seq<(string, string)>, supports: seq<string>,
    contradicts: seq<string>, proposals: seq<Proposal>)

  /** What a test case is defined by: its authored sequence and the review metadata.  Expectations and the
      purpose are carried as they are; the texts in them are JSON. */
  datatype TestCase = TestCase(
    id: string, name: string, subject: string, tags: seq<string>, notes: seq<string>, createdAt: string,
    datasetId: Option<string>, expectations: seq<string>, purpose: Option<map<string, string>>,
    sequence: seq<EvidenceSpec>)

  /** A definition as it is saved or sent, any entry of which may be missing. */
  datatype SpecDict = SpecDict(
    id: Option<string>, name: Option<string>, subject: Option<string>, tags: Option<seq<string>>,
    notes: Option<seq<string>>, createdAt: Option<string>, datasetId: Option<string>,
    expectations: Option<seq<string>>, stepExpectations: Option<seq<string>>,
    purpose: Option<map<string, string>>, purposeBlock: Option<map<string, string>>,
    evidenceSpecs: Option<seq<EvidenceSpec>>)

  function Or<T>(x: Option<T>, otherwise: T): T { if x.Some? then x.value else otherwise }

  /** `from_spec_dict`.  An empty creation time counts as none, an empty list of expectations and an empty purpose
      give way to the entries of the review dataset. */
  function FromSpecDict(d: SpecDict, now: string): TestCase
    requires d.id.Some?
  {
    TestCase(
      d.id.value, Or(d.name, d.id.value), Or(d.subject, DEFAULT_SUBJECT), Or(d.tags, []), Or(d.notes, []),
      if Or(d.createdAt, "") != "" then d.createdAt.value else now,
      d.datasetId,
      if Or(d.expectations, []) != [] then d.expectations.value else Or(d.stepExpectations, []),
      if Or(d.purpose, map[]) != map[] then d.purpose else d.purposeBlock,
      Or(d.evidenceSpecs, []))
  }

  /** What is given is taken as it is, and what is missing has a default: the id for the name, the review subject,
      nothing for the lists, the time of reading for a creation time. */
  lemma SpecSays(d: SpecDict, now: string)
    requires d.id.Some?
    ensures var c := FromSpecDict(d, now);
            && c.id == d.id.value
            && (d.name == Some(c.name) || (d.name.None? && c.name == c.id))
            && (d.subject == Some(c.subject) || (d.subject.None? && c.subject == "review-subject"))
            && (d.tags == Some(c.tags) || (d.tags.None? && c.tags == []))
            && (d.notes == Some(c.notes) || (d.notes.None? && c.notes == []))
            && (d.evidenceSpecs == Some(c.sequence) || (d.evidenceSpecs.None? && c.sequence == []))
            && c.datasetId == d.datasetId
            && if d.createdAt == None || d.createdAt == Some("") then c.createdAt == now
               else d.createdAt == Some(c.createdAt)
  {
  }

  /** `spec_dict`. */
  function ToSpecDict(c: TestCase): SpecDict {
    SpecDict(Some(c.id), Some(c.name), Some(c.subject), Some(c.tags), Some(c.notes), Some(c.createdAt), c.datasetId,
             Some(c.expectations), None, c.purpose, None, Some(c.sequence))
  }

  /** A definition comes back whole, under whatever id and name it is given, exactly when it has a creation time
      and its purpose, if it has one, is not empty. */
  lemma SpecRoundTrip(c: TestCase, id: string, name: string, now: string)
    requires now != ""
    ensures FromSpecDict(ToSpecDict(c).(id := Some(id), name := Some(name)), now) == c.(id := id, name := name) <==>
            c.createdAt != "" && c.purpose != Some(map[])
  {
    var back := FromSpecDict(ToSpecDict(c).(id := Some(id), name := Some(name)), now);
    if c.createdAt == "" {
      assert back.createdAt == now;
    }
    if c.purpose == Some(map[]) {
      assert back.purpose == None;
    }
  }

  /** What an empty purpose turns into on the way. */
  function Purposeful(c: TestCase): TestCase { if c.purpose == Some(map[]) then c.(purpose := None) else c }

  /** `test-case-{n}`. */
  function CaseId(n: nat): string { "test-case-" + Decimal(n) }

  /** `s.rsplit("-", 1)[-1]`. */
  function Suffix(s: string): string {
    if s == "" || s[|s| - 1] == '-' then "" else Suffix(s[..|s| - 1]) + [s[|s| - 1]]
  }

  predicate AllDigits(s: string) { s != "" && forall c :: c in s ==> IsDigit(c) }

  /** The number an id ends in, if it ends in one. */
  function NumberIn(id: string): Option<nat> {
    if AllDigits(Suffix(id)) then Some(ValueOf(Suffix(id))) else None
  }

  lemma {:induction false} SuffixOf(a: string, b: string)
    requires forall i :: 0 <= i < |b| ==> b[i] != '-'
    ensures Suffix(a + "-" + b) == b
    decreases |b|
  {
    var s := a + "-" + b;
    if b == "" {
      assert s[|s| - 1] == '-';
    } else {
      var n := |b| - 1;
      assert b == b[..n] + [b[n]];
      SuffixOf(a, b[..n]);
      assert s[..|s| - 1] == a + "-" + b[..n];
      assert s[|s| - 1] == b[n];
    }
  }

  lemma CaseIdEnds(n: nat)
    ensures Suffix(CaseId(n)) == Decimal(n)
  {
    assert CaseId(n) == "test-case" + "-" + Decimal(n);
    forall i | 0 <= i < |Decimal(n)| ensures Decimal(n)[i] != '-' {
      assert IsDigit(Decimal(n)[i]);
    }
    SuffixOf("test-case", Decimal(n));
  }

  /** The suffix is what follows the last hyphen, or everything. */
  lemma {:induction false} SuffixIs(s: string) returns (i: nat)
    ensures i <= |s| && Suffix(s) == s[i..] && (i > 0 ==> s[i - 1] == '-') && '-' !in s[i..]
  {
    if s == "" || s[|s| - 1] == '-' {
      i := |s|;
    } else {
      var init := s[..|s| - 1];
      i := SuffixIs(init);
      assert s[i..] == init[i..] + [s[|s| - 1]];
    }
  }

  /** Reading the number back out of a minted id gives the number. */
  lemma CaseIdReadsBack(n: nat)
    ensures NumberIn(CaseId(n)) == Some(n)
  {
    CaseIdEnds(n);
    DecimalRoundTrip(n);
  }

  /** No minted id is numbered above the counter. */
  ghost predicate Below(ids: set<string>, counter: nat) {
    forall n: nat :: CaseId(n) in ids ==> n <= counter
  }

  lemma NextIsFresh(ids: set<string>, counter: nat)
    requires Below(ids, counter)
    ensures CaseId(counter + 1) !in ids
    ensures Below(ids, counter + 1) && Below(ids + {CaseId(counter + 1)}, counter + 1)
  {
    CaseIdReadsBack(counter + 1);
    forall n: nat | CaseId(n) in ids + {CaseId(counter + 1)} ensures n <= counter + 1 {
      CaseIdReadsBack(n);
    }
  }

  /** Loading an id raises the counter past its number. */
  lemma LoadedIsBelow(ids: set<string>, counter: nat, id: string)
    requires Below(ids, counter)
    ensures Below(ids + {id}, Raised(counter, id))
  {
    forall n: nat | CaseId(n) in ids + {id} ensures n <= Raised(counter, id) {
      CaseIdReadsBack(n);
    }
  }

  function Raised(counter: nat, id: string): nat {
    match NumberIn(id)
    case None => counter
    case Some(n) => if n > counter then n else counter
  }

  /** Every saved definition has an id. */
  predicate AllNamed(saved: seq<SpecDict>) { forall i :: 0 <= i < |saved| ==> saved[i].id.Some? }

  lemma PrefixNamed(saved: seq<SpecDict>, i: nat)
    requires AllNamed(saved) && i < |saved|
    ensures AllNamed(saved[..i]) && saved[i].id.Some? && saved[..i + 1] == saved[..i] + [saved[i]]
  {
  }

  function Ids(saved: seq<SpecDict>): seq<string>
    requires AllNamed(saved)
  {
    seq(|saved|, i requires 0 <= i < |saved| => saved[i].id.value)
  }

  lemma IdsNext(saved: seq<SpecDict>, d: SpecDict)
    requires d.id.Some? && AllNamed(saved)
    ensures Ids(saved + [d]) == Ids(saved) + [d.id.value]
  {
  }

  /** What loading definitions in order leaves: under every saved id the last definition saved with it, and nothing
      else. */
  ghost predicate Holds(cases: map<string, TestCase>, saved: seq<SpecDict>, now: string)
    requires AllNamed(saved)
  {
    && (forall id :: id in cases <==> exists i :: 0 <= i < |saved| && saved[i].id.value == id)
    && forall i :: 0 <= i < |saved| && IsLastOf(saved, i) ==>
         saved[i].id.value in cases && cases[saved[i].id.value] == FromSpecDict(saved[i], now)
  }

  lemma HoldsNext(cases: map<string, TestCase>, saved: seq<SpecDict>, d: SpecDict, now: string)
    requires AllNamed(saved)
    requires d.id.Some? && Holds(cases, saved, now)
    ensures Holds(cases[d.id.value := FromSpecDict(d, now)], saved + [d], now)
  {
    var all, after := saved + [d], cases[d.id.value := FromSpecDict(d, now)];
    assert all[|saved|] == d && forall i :: 0 <= i < |saved| ==> all[i] == saved[i];
    forall i | 0 <= i < |saved| && IsLastOf(all, i)
      ensures saved[i].id.value in after && after[saved[i].id.value] == FromSpecDict(saved[i], now)
    {
      assert IsLastOf(saved, i) && all[|saved|].id != all[i].id;
    }
  }

  /** No later definition was saved under the same id. */
  predicate IsLastOf(saved: seq<SpecDict>,
                     i: nat) { i < |saved| && forall j :: i < j < |saved| ==> saved[j].id != saved[i].id }

  /** The counter stands at the highest number a saved id ends in. */
  ghost predicate Counts(counter: nat, saved: seq<SpecDict>)
    requires AllNamed(saved)
  {
    && (forall i :: 0 <= i < |saved| && NumberIn(saved[i].id.value).Some? ==>
       NumberIn(saved[i].id.value).value <= counter)
    && (counter == 0 || exists i :: 0 <= i < |saved| && NumberIn(saved[i].id.value) == Some(counter))
  }

  lemma CountsNext(counter: nat, saved: seq<SpecDict>, d: SpecDict)
    requires AllNamed(saved)
    requires d.id.Some? && Counts(counter, saved)
    ensures Counts(Raised(counter, d.id.value), saved + [d])
  {
    var all := saved + [d];
    assert all[|saved|] == d;
    if i :| 0 <= i < |saved| && NumberIn(saved[i].id.value) == Some(counter) {
      assert all[i] == saved[i];
    }
  }

  class TestCaseManager {
    var cases: map<string, TestCase>
    var order: seq<string>
    var counter: nat
    var currentId: string

    /** Every case stands under its own id and has a creation time. */
    ghost predicate Registered()
      reads this
    {
      && (forall id :: id in order <==> id in cases)
      && (forall id :: id in cases ==> cases[id].id == id && cases[id].createdAt != "")
      && Below(cases.Keys, counter)
    }

    /** Besides, there is a current case. */
    ghost predicate Valid()
      reads this
    {
      Registered() && currentId in cases
    }

    /** Whatever was saved is loaded in order; with nothing saved, a first case is made.  The listing has no
        repeats exactly when the saved ids had none. */
    constructor (saved: seq<SpecDict>, now: string)
      requires now != "" && AllNamed(saved)
      ensures Valid()
      ensures saved != [] ==> order == Ids(saved) && currentId == saved[|saved| - 1].id.value
      ensures saved != [] ==> Holds(cases, saved, now) && Counts(counter, saved)
      ensures saved == [] ==> order == [CaseId(1)] && cases.Keys == {CaseId(1)}
      ensures saved == [] ==> cases[CaseId(1)].name == "Test Case 1"
      ensures Distinct(order) <==> Distinct(Ids(saved))
    {
      cases, order, counter, currentId := map[], [], 0, "";
      new;
      LoadSaved(saved, now);
      if |cases| == 0 {
        var _ := NewTestCase(now);
      }
    }

    method LoadSaved(saved: seq<SpecDict>, now: string)
      requires Registered() && order == [] && cases == map[] && counter == 0
      requires now != "" && AllNamed(saved)
      modifies this
      ensures Loaded(saved, now)
    {
      assert saved[..0] == [];
      for i := 0 to |saved|
        invariant LoadedUpTo(saved, i, now)
      {
        LoadNext(saved, i, now);
      }
      assert saved[..|saved|] == saved;
    }

    /** These definitions are loaded, the last of them current. */
    ghost predicate Loaded(done: seq<SpecDict>, now: string)
      requires AllNamed(done)
      reads this
    {
      && Registered() && order == Ids(done) && Holds(cases, done, now) && Counts(counter, done)
      && if done == [] then cases == map[] && counter == 0
         else currentId == done[|done| - 1].id.value && currentId in cases
    }

    ghost predicate LoadedUpTo(saved: seq<SpecDict>, i: nat, now: string)
      requires i <= |saved|
      reads this
    {
      AllNamed(saved[..i]) && Loaded(saved[..i], now)
    }

    method LoadNext(saved: seq<SpecDict>, i: nat, now: string)
      requires i < |saved| && now != "" && AllNamed(saved)
      requires LoadedUpTo(saved, i, now)
      modifies this
      ensures LoadedUpTo(saved, i + 1, now)
    {
      PrefixNamed(saved, i);
      LoadAfter(saved[..i], saved[i], now);
    }

    method LoadAfter(ghost done: seq<SpecDict>, d: SpecDict, now: string)
      requires d.id.Some? && now != "" && AllNamed(done) && Loaded(done, now)
      modifies this
      ensures Loaded(done + [d], now)
    {
      IdsNext(done, d);
      HoldsNext(cases, done, d, now);
      CountsNext(counter, done, d);
      LoadOne(d, now);
    }

    /** One saved definition: it goes under its own id, and the counter past the number it ends in. */
    method LoadOne(d: SpecDict, now: string)
      requires Registered() && d.id.Some? && now != ""
      modifies this
      ensures Registered() && currentId == d.id.value && currentId in cases && cases[currentId] == FromSpecDict(d, now)
      ensures cases == old(cases)[d.id.value := FromSpecDict(d, now)] && order == old(order) + [d.id.value]
      ensures counter == Raised(old(counter), d.id.value)
    {
      var made := FromSpecDict(d, now);
      LoadedIsBelow(cases.Keys, counter, made.id);
      assert cases[made.id := made].Keys == cases.Keys + {made.id};
      cases := cases[made.id := made];
      order := order + [made.id];
      currentId := made.id;
      counter := Raised(counter, made.id);
    }

    method NextId() returns (id: string)
      requires Registered()
      modifies `counter
      ensures Registered() && counter == old(counter) + 1 && id == CaseId(counter) && id !in cases
      ensures Below(cases.Keys + {id}, counter)
    {
      NextIsFresh(cases.Keys, counter);
      counter := counter + 1;
      id := CaseId(counter);
    }

    /** Registering a new id keeps every other case and the order of the listing. */
    method Register(made: TestCase)
      requires Registered() && made.id !in cases && Below(cases.Keys + {made.id}, counter) && made.createdAt != ""
      modifies `cases, `order, `currentId
      ensures Valid() && currentId == made.id
      ensures cases == old(cases)[made.id := made] && order == old(order) + [made.id]
      ensures old(Distinct(order)) ==> Distinct(order)
    {
      DistinctAppend(order, made.id);
      assert cases[made.id := made].Keys == cases.Keys + {made.id};
      cases := cases[made.id := made];
      order := order + [made.id];
      currentId := made.id;
    }

    method NewTestCase(now: string) returns (made: TestCase)
      requires Registered() && now != ""
      modifies this
      ensures Valid() && made.id !in old(cases) && currentId == made.id && made.id == CaseId(old(counter) + 1)
      ensures made.id == CaseId(old(counter) + 1) && made.name == "Test Case " + Decimal(old(counter) + 1)
      ensures made == TestCase(made.id, made.name, "review-subject", [], [], now, None, [], None, [])
      ensures cases == old(cases)[made.id := made] && order == old(order) + [made.id]
      ensures old(Distinct(order)) ==> Distinct(order)
    {
      var id := NextId();
      CaseIdEnds(counter);
      made := TestCase(id, "Test Case " + Suffix(id), DEFAULT_SUBJECT, [], [], now, None, [], None, []);
      Register(made);
    }

    /** The copy is a new case with everything of the source but its id and name, save that an empty purpose is
        dropped; the source stays as it was. */
    method DuplicateCurrent(now: string) returns (made: TestCase)
      requires Valid() && now != ""
      modifies this
      ensures Valid() && made.id !in old(cases)
      ensures var source := old(cases[currentId]);
              made == Purposeful(source).(id := made.id, name := "Copy of " + source.name)
      ensures cases == old(cases)[made.id := made] && order == old(order) + [made.id] && currentId == made.id
      ensures old(Distinct(order)) ==> Distinct(order)
    {
      var source := cases[currentId];
      var id := NextId();
      SpecRoundTrip(Purposeful(source), id, "Copy of " + source.name, now);
      made := FromSpecDict(ToSpecDict(source).(id := Some(id), name := Some("Copy of " + source.name)), now);
      Register(made);
    }

    /** An import never overwrites: its own id is dropped, and everything else it says is kept.  A definition
        that does not build uses an id up and changes nothing else. */
    method ImportTestCase(d: SpecDict, now: string, builds: bool) returns (made: Option<TestCase>)
      requires Valid() && now != ""
      modifies this
      ensures Valid() && made.Some? == builds
      ensures builds ==>
                var c := made.value;
                && c.id !in old(cases) && c.name == Or(d.name, "Imported Test Case")
                && cases == old(cases)[c.id := c] && order == old(order) + [c.id] && currentId == c.id
                && c.sequence == Or(d.evidenceSpecs, []) && c.subject == Or(d.subject, DEFAULT_SUBJECT)
                && c.tags == Or(d.tags, []) && c.notes == Or(d.notes, []) && c.datasetId == d.datasetId
                && c.createdAt == (if Or(d.createdAt, "") == "" then now else d.createdAt.value)
                && c.expectations ==
                   (if Or(d.expectations, []) == [] then Or(d.stepExpectations, []) else d.expectations.value)
                && c.purpose == (if Or(d.purpose, map[]) == map[] then d.purposeBlock else d.purpose)
      ensures !builds ==> cases == old(cases) && order == old(order) && currentId == old(currentId)
      ensures old(Distinct(order)) ==> Distinct(order)
    {
      var id := NextId();
      if !builds {
        return None;
      }
      var imported := FromSpecDict(d.(id := Some(id), name := Some(Or(d.name, "Imported Test Case"))), now);
      Register(imported);
      made := Some(imported);
    }

    /** Exporting the current case and importing it again loses at most an empty purpose. */
    method ExportImport(now: string) returns (made: TestCase)
      requires Valid() && now != ""
      modifies this
      ensures Valid() && made == Purposeful(old(cases[currentId])).(id := made.id) && made.id !in old(cases)
    {
      var source := cases[currentId];
      var imported := ImportTestCase(ToSpecDict(source), now, true);
      made := imported.value;
    }

    /** An unknown id changes nothing. */
    method Select(id: string) returns (found: Option<TestCase>)
      requires Valid()
      modifies `currentId
      ensures Valid() && found.Some? == (id in cases)
      ensures found.Some? ==> found.value == cases[id] && currentId == id
      ensures found.None? ==> currentId == old(currentId)
    {
      if id !in cases {
        return None;
      }
      currentId := id;
      found := Some(cases[id]);
    }
  }
}
