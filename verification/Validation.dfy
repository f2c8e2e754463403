/** Strict acceptance of an extraction reply: typed structure out of a JSON tree, or nothing. */
module Validation {
  import opened Domain
  import opened Texts
  import opened Standing

  datatype Key =
    | KEvidence | KObservation | KEvidenceClass | KReliability | KClassificationConfidence | KProvenanceConfidence
    | KTextSpan | KRole | KSubjectKind | KSubject | KSourceKind | KSourceId | KOther(text: string)

  /** A parsed reply.  `JNonFinite` is NaN or an infinity, which the parser lets through. */
  datatype Reply =
    | JNull | JBool(b: bool) | JInt(i: int) | JFloat(r: real) | JNonFinite | JStr(s: string)
    | JArr(items: seq<Reply>) | JObj(m: map<Key, Reply>)

  datatype ValidatedObservation = ValidatedObservation(
    observation: string, evidenceClass: Member, reliability: real, classificationConfidence: real,
    provenanceConfidence: real, textSpan: Option<string>, standing: Option<ProposedStanding>)

  const EVIDENCE_CLASSES: map<string, Member> :=
    map["narrative" := NARRATIVE, "reflective" := REFLECTIVE, "behavioural" := BEHAVIOURAL,
        "contradictory" := CONTRADICTORY, "missing" := MISSING, "failed_acquisition" := FAILED_ACQUISITION]

  /** How a class is written. */
  predicate ClassText(c: Member, text: string) {
    match c
    case NARRATIVE => text == "narrative"
    case REFLECTIVE => text == "reflective"
    case BEHAVIOURAL => text == "behavioural"
    case CONTRADICTORY => text == "contradictory"
    case MISSING => text == "missing"
    case FAILED_ACQUISITION => text == "failed_acquisition"
    case _ => false
  }

  lemma ClassesAre(text: string, c: Member)
    ensures text in EVIDENCE_CLASSES && EVIDENCE_CLASSES[text] == c <==> ClassText(c, text)
  {
    ClassLengths();
  }

  lemma ClassLengths()
    ensures |"narrative"| == 9 && |"reflective"| == 10 && |"behavioural"| == 11 && |"contradictory"| == 13
    ensures |"missing"| == 7 && |"failed_acquisition"| == 18
  {
  }

  lemma NarrativeIsTidy()
    ensures Tidy("narrative") && Tidy("reflective")
  {
  }

  lemma BehaviouralIsTidy()
    ensures Tidy("behavioural") && Tidy("contradictory")
  {
  }

  lemma MissingIsTidy()
    ensures Tidy("missing") && Tidy("failed_acquisition")
  {
  }

  lemma ClassIsTidy(c: Member, text: string)
    requires ClassText(c, text)
    ensures Tidy(text)
  {
    NarrativeIsTidy();
    BehaviouralIsTidy();
    MissingIsTidy();
  }

  /** The text spells the class, in whatever case and with whatever whitespace around it. */
  ghost predicate NamesClass(s: string, c: Member) { exists text :: ClassText(c, text) && SpelledAs(s, text) }

  /** What is looked up is exactly what is spelled. */
  lemma ClassExactly(s: string, c: Member)
    ensures Lower(Strip(s)) in EVIDENCE_CLASSES && EVIDENCE_CLASSES[Lower(Strip(s))] == c <==> NamesClass(s, c)
  {
    var name := Lower(Strip(s));
    if name in EVIDENCE_CLASSES && EVIDENCE_CLASSES[name] == c {
      ClassesAre(name, c);
      ClassIsTidy(c, name);
      SpelledExactly(s, name);
    }
    if NamesClass(s, c) {
      var text :| ClassText(c, text) && SpelledAs(s, text);
      ClassIsTidy(c, text);
      SpelledExactly(s, text);
      ClassesAre(text, c);
    }
  }

  /** `item.get(key)`. */
  function At(m: map<Key, Reply>, k: Key): Reply { if k in m then m[k] else JNull }

  /** A number in [0, 1]; booleans do not count as numbers. */
  function UnitInterval(v: Reply): Option<real> {
    match v
    case JInt(i) => if 0 <= i <= 1 then Some(i as real) else None
    case JFloat(r) => if 0.0 <= r <= 1.0 then Some(r) else None
    case _ => None
  }

  function NonEmptyStr(v: Reply): Option<string> {
    if v.JStr? && !Blank(v.s) then Some(v.s) else None
  }

  predicate StrOrNull(v: Reply) { v.JNull? || v.JStr? }

  function OptionalStr(v: Reply): Option<string> { if v.JStr? then Some(v.s) else None }

  datatype Checked<T> = Ok(value: T) | Malformed

  function ProposedIn(m: map<Key, Reply>): Checked<Option<ProposedStanding>> {
    if KRole !in m && KSubjectKind !in m then Ok(None)
    else if KSourceKind in m || KSourceId in m then Malformed
    else
      var role, kind, subject := NonEmptyStr(At(m, KRole)), NonEmptyStr(At(m, KSubjectKind)), At(m, KSubject);
      if role.None? || kind.None? || !StrOrNull(subject) then Malformed
      else Ok(Some(ProposedStanding(role.value, kind.value, OptionalStr(subject))))
  }

  /** One evidence item. */
  function Observation(item: Reply): Checked<ValidatedObservation> {
    if !item.JObj? then Malformed else
    var m := item.m;
    var text, cls := NonEmptyStr(At(m, KObservation)), At(m, KEvidenceClass);
    if text.None? || !cls.JStr? || Lower(Strip(cls.s)) !in EVIDENCE_CLASSES || !StrOrNull(At(m, KTextSpan))
    then Malformed
    else
      var r, c, p := UnitInterval(At(m, KReliability)), UnitInterval(At(m, KClassificationConfidence)),
                     UnitInterval(At(m, KProvenanceConfidence));
      var standing := ProposedIn(m);
      if r.None? || c.None? || p.None? || standing.Malformed? then Malformed
      else Ok(ValidatedObservation(text.value, EVIDENCE_CLASSES[Lower(Strip(cls.s))], r.value, c.value, p.value,
                                   OptionalStr(At(m, KTextSpan)), standing.value))
  }

  function Observations(items: seq<Reply>): Checked<seq<ValidatedObservation>> {
    if items == [] then Ok([]) else
    var init, last := Observations(items[..|items| - 1]), Observation(items[|items| - 1]);
    if init.Ok? && last.Ok? then Ok(init.value + [last.value]) else Malformed
  }

  /** The whole reply; an absent list is an empty answer, a wrong one is not. */
  function Validated(reply: Reply): Checked<seq<ValidatedObservation>> {
    if !reply.JObj? then Malformed
    else match At(reply.m, KEvidence)
      case JNull => Ok([])
      case JArr(items) => Observations(items)
      case _ => Malformed
  }

  lemma {:induction false} ObservationsAt(items: seq<Reply>)
    ensures Observations(items).Ok? <==> forall i :: 0 <= i < |items| ==> Observation(items[i]).Ok?
    ensures Observations(items).Ok? ==>
              |Observations(items).value| == |items|
              && forall i :: 0 <= i < |items| ==> Observation(items[i]) == Ok(Observations(items).value[i])
  {
    if items != [] {
      ObservationsAt(items[..|items| - 1]);
    }
  }

  /** The number is the reply's own and in [0, 1]: no boolean, no string, no null, no NaN. */
  predicate IsNumber(v: Reply, r: real) {
    0.0 <= r <= 1.0 && (v == JFloat(r) || (v.JInt? && v.i as real == r))
  }

  /** What the item says under the key, if anything: a text or null. */
  predicate IsOptional(v: Reply, s: Option<string>) { v == if s.Some? then JStr(s.value) else JNull }

  /** The observation says what the item says and nothing else. */
  ghost predicate Says(item: Reply, o: ValidatedObservation) {
    item.JObj? &&
    var m := item.m;
    && At(m, KObservation) == JStr(o.observation) && !Blank(o.observation)
    && At(m, KEvidenceClass).JStr? && NamesClass(At(m, KEvidenceClass).s, o.evidenceClass)
    && IsNumber(At(m, KReliability), o.reliability)
    && IsNumber(At(m, KClassificationConfidence), o.classificationConfidence)
    && IsNumber(At(m, KProvenanceConfidence), o.provenanceConfidence)
    && IsOptional(At(m, KTextSpan), o.textSpan)
    && (if o.standing.Some? then ProposesStanding(m, o.standing.value) else KRole !in m && KSubjectKind !in m)
  }

  /** A proposal names a role and a subject kind, perhaps a subject, and never a source. */
  predicate ProposesStanding(m: map<Key, Reply>, p: ProposedStanding) {
    && At(m, KRole) == JStr(p.role) && !Blank(p.role)
    && At(m, KSubjectKind) == JStr(p.subjectKind) && !Blank(p.subjectKind)
    && IsOptional(At(m, KSubject), p.subject) && KSourceKind !in m && KSourceId !in m
  }

  lemma NumberExactly(v: Reply, r: real)
    ensures UnitInterval(v) == Some(r) <==> IsNumber(v, r)
  {
  }

  lemma ProposedExactly(m: map<Key, Reply>, p: Option<ProposedStanding>)
    ensures ProposedIn(m) == Ok(p) <==>
            if p.Some? then ProposesStanding(m, p.value) else KRole !in m && KSubjectKind !in m
  {
  }

  /** An item is accepted as an observation exactly when the observation says what the item says: nothing is
      coerced or filled in, and nothing that can be said is refused. */
  lemma NothingInvented(item: Reply, o: ValidatedObservation)
    ensures Observation(item) == Ok(o) <==> Says(item, o)
  {
    if item.JObj? {
      NumberExactly(At(item.m, KReliability), o.reliability);
      NumberExactly(At(item.m, KClassificationConfidence), o.classificationConfidence);
      NumberExactly(At(item.m, KProvenanceConfidence), o.provenanceConfidence);
      ProposedExactly(item.m, o.standing);
      if At(item.m, KEvidenceClass).JStr? {
        ClassExactly(At(item.m, KEvidenceClass).s, o.evidenceClass);
      }
    }
  }

  lemma {:induction false} ItemsExactly(items: seq<Reply>, os: seq<ValidatedObservation>)
    ensures Observations(items) == Ok(os) <==>
            |items| == |os| && forall i :: 0 <= i < |os| ==> Observation(items[i]) == Ok(os[i])
  {
    ObservationsAt(items);
    if |items| == |os| && forall i :: 0 <= i < |os| ==> Observation(items[i]) == Ok(os[i]) {
      assert Observations(items).value == os;
    }
  }

  /** A reply is accepted exactly when it is an object whose list, if there is one, says these observations
      item by item. */
  lemma ReplyExactly(reply: Reply, os: seq<ValidatedObservation>)
    ensures Validated(reply) == Ok(os) <==>
            && reply.JObj?
            && (var list := At(reply.m, KEvidence);
                if list.JArr? then |list.items| == |os| && forall i :: 0 <= i < |os| ==> Says(list.items[i], os[i])
                else list.JNull? && os == [])
  {
    if reply.JObj? && At(reply.m, KEvidence).JArr? {
      var items := At(reply.m, KEvidence).items;
      ItemsExactly(items, os);
      forall i | 0 <= i < |items| && |items| == |os|
        ensures Observation(items[i]) == Ok(os[i]) <==> Says(items[i], os[i])
      {
        NothingInvented(items[i], os[i]);
      }
    }
  }

  /** `validate_extraction`: item by item into a list, one bad item raises for the reply. */
  method ValidateExtraction(reply: Reply) returns (r: Checked<seq<ValidatedObservation>>)
    ensures r == Validated(reply)
  {
    if !reply.JObj? {
      return Malformed;
    }
    var list := At(reply.m, KEvidence);
    if list.JNull? {
      return Ok([]);
    }
    if !list.JArr? {
      return Malformed;
    }
    var out: seq<ValidatedObservation> := [];
    for i := 0 to |list.items|
      invariant Observations(list.items[..i]) == Ok(out)
    {
      assert list.items[..i + 1][..i] == list.items[..i];
      var o := Observation(list.items[i]);
      if o.Malformed? {
        ObservationsAt(list.items);
        return Malformed;
      }
      out := out + [o.value];
    }
    assert list.items[..|list.items|] == list.items;
    r := Ok(out);
  }
}
