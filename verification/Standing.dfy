/** Completing what an extractor proposed about an observation with what the application knows. */
module Standing {
  import opened Domain
  import opened Texts
  import opened Participants

  const ROLES: map<string, Member> :=
    map["event_observation" := EVENT_OBSERVATION, "account" := ACCOUNT,
        "response_or_resonance" := RESPONSE_OR_RESONANCE, "meta_instruction" := META_INSTRUCTION]

  const SUBJECT_KINDS: map<string, Member> :=
    map["participant" := PARTICIPANT, "dyad" := DYAD, "third_party" := THIRD_PARTY, "none" := NONE]

  /** How a role, and a kind of subject, is written. */
  predicate RoleText(r: Member, text: string) {
    match r
    case EVENT_OBSERVATION => text == "event_observation"
    case ACCOUNT => text == "account"
    case RESPONSE_OR_RESONANCE => text == "response_or_resonance"
    case META_INSTRUCTION => text == "meta_instruction"
    case _ => false
  }

  predicate KindText(k: Member, text: string) {
    match k
    case PARTICIPANT => text == "participant"
    case DYAD => text == "dyad"
    case THIRD_PARTY => text == "third_party"
    case NONE => text == "none"
    case _ => false
  }

  lemma RolesAre(text: string, r: Member)
    ensures text in ROLES && ROLES[text] == r <==> RoleText(r, text)
  {
    RoleLengths();
  }

  lemma RoleLengths()
    ensures |"event_observation"| == 17 && |"account"| == 7 && |"response_or_resonance"| == 21
    ensures |"meta_instruction"| == 16
  {
  }

  lemma KindsAre(text: string, k: Member)
    ensures text in SUBJECT_KINDS && SUBJECT_KINDS[text] == k <==> KindText(k, text)
  {
    KindLengths();
  }

  lemma KindLengths()
    ensures |"participant"| == 11 && |"third_party"| == 11 && |"dyad"| == 4 && |"none"| == 4
    ensures "participant"[0] != "third_party"[0] && "dyad"[0] != "none"[0]
  {
  }

  datatype ProposedStanding = ProposedStanding(role: string, subjectKind: string, subject: Option<string>)

  datatype CompletedStanding = CompletedStanding(
    sourceKind: Member, subjectKind: Member, role: Member, sourceId: Option<string>, subjectId: Option<string>)

  function Optional(s: Option<string>): Value { if s.Some? then Str(s.value) else PyNone }

  /** The constructor call's attributes. */
  function Attributes(s: CompletedStanding): map<Field, Value> {
    map[SourceKind := Enum(EvidenceSourceKind, s.sourceKind), SubjectKind := Enum(EvidenceSubjectKind, s.subjectKind),
        Role := Enum(EvidenceRole, s.role), SourceId := Optional(s.sourceId), SubjectId := Optional(s.subjectId)]
  }

  datatype Breach = UnknownRole | UnknownSubjectKind | SubjectRequired | SubjectNotOffered | SpeakerNotPermitted

  /** `Invalid` is the constructor's own InvariantViolation, which is not a governed rejection. */
  datatype Completion = Absent | Complete(s: CompletedStanding) | Rejected(breach: Breach) | Invalid

  predicate NeedsSubject(kind: Member) { kind == PARTICIPANT || kind == THIRD_PARTY }

  function CompleteStanding(proposed: Option<ProposedStanding>, speaker: Option<string>,
                            v: ParticipantVocabulary): Completion {
    if proposed.None? then Absent else
    var p := proposed.value;
    if p.role !in ROLES then Rejected(UnknownRole)
    else if p.subjectKind !in SUBJECT_KINDS then Rejected(UnknownSubjectKind)
    else if NeedsSubject(SUBJECT_KINDS[p.subjectKind]) && p.subject.None? then Rejected(SubjectRequired)
    else
      var subject := if p.subject.Some? then Resolve(v.entries, p.subject.value) else None;
      if p.subject.Some? && subject.None? then Rejected(SubjectNotOffered)
      else if speaker.Some? && !Knows(v, speaker.value) then Rejected(SpeakerNotPermitted)
      else Construct(CompletedStanding(if speaker.Some? then PARTICIPANT else SYSTEM_SURFACE,
                                       SUBJECT_KINDS[p.subjectKind], ROLES[p.role], speaker, subject))
  }

  function Construct(s: CompletedStanding): Completion {
    if Accepts(EvidenceStanding, Attributes(s)) then Complete(s) else Invalid
  }

  /** The constructor's condition, read off the standing. */
  lemma AcceptedExactly(s: CompletedStanding)
    ensures Accepts(EvidenceStanding, Attributes(s)) <==>
              && (s.sourceKind == PARTICIPANT ==> s.sourceId.Some? && s.sourceId.value != "")
              && (NeedsSubject(s.subjectKind) ==> s.subjectId.Some? && s.subjectId.value != "")
  {
    var f := Attributes(s);
    assert Arg(f, SourceKind) == Enum(EvidenceSourceKind, s.sourceKind);
    assert Arg(f, SubjectKind) == Enum(EvidenceSubjectKind, s.subjectKind);
    assert Arg(f, SourceId) == Optional(s.sourceId) && Arg(f, SubjectId) == Optional(s.subjectId);
  }

  /** The proposal is within what the request offered and the roster allows. */
  ghost predicate Permitted(p: ProposedStanding, speaker: Option<string>, v: ParticipantVocabulary) {
    && (exists r :: RoleText(r, p.role))
    && (exists k :: KindText(k, p.subjectKind) && (k.PARTICIPANT? || k.THIRD_PARTY? ==> p.subject.Some?))
    && (p.subject.Some? ==> Offers(v, p.subject.value))
    && (speaker.Some? ==> Knows(v, speaker.value))
  }

  /** The same by the two tables. */
  ghost predicate Tabled(p: ProposedStanding, speaker: Option<string>, v: ParticipantVocabulary) {
    && p.role in ROLES && p.subjectKind in SUBJECT_KINDS
    && (NeedsSubject(SUBJECT_KINDS[p.subjectKind]) ==> p.subject.Some?)
    && (p.subject.Some? ==> Offers(v, p.subject.value))
    && (speaker.Some? ==> Knows(v, speaker.value))
  }

  lemma PermittedIs(p: ProposedStanding, speaker: Option<string>, v: ParticipantVocabulary)
    ensures Permitted(p, speaker, v) <==> Tabled(p, speaker, v)
  {
    RoleIsTabled(p.role);
    KindIsTabled(p.subjectKind);
  }

  lemma RoleIsTabled(text: string)
    ensures text in ROLES <==> exists r :: RoleText(r, text)
  {
    if text in ROLES {
      RolesAre(text, ROLES[text]);
    }
    if r :| RoleText(r, text) {
      RolesAre(text, r);
    }
  }

  lemma KindIsTabled(text: string)
    ensures text in SUBJECT_KINDS <==> exists k :: KindText(k, text)
    ensures forall k :: KindText(k, text) ==> text in SUBJECT_KINDS && SUBJECT_KINDS[text] == k
  {
    if text in SUBJECT_KINDS {
      KindsAre(text, SUBJECT_KINDS[text]);
    }
    forall k | KindText(k, text) ensures text in SUBJECT_KINDS && SUBJECT_KINDS[text] == k {
      KindsAre(text, k);
    }
  }

  /** Rejected exactly when something proposed was not permitted. */
  lemma RejectedExactly(p: ProposedStanding, speaker: Option<string>, requestId: string, roster: seq<string>)
    ensures var v := Build(requestId, roster);
            CompleteStanding(Some(p), speaker, v).Rejected? <==> !Permitted(p, speaker, v)
  {
    RejectedWhen(p, speaker, requestId, roster);
    PermittedIs(p, speaker, Build(requestId, roster));
  }

  lemma RejectedWhen(p: ProposedStanding, speaker: Option<string>, requestId: string, roster: seq<string>)
    ensures var v := Build(requestId, roster);
            CompleteStanding(Some(p), speaker, v).Rejected? <==> !Tabled(p, speaker, v)
  {
    if p.subject.Some? {
      ResolvesOnlyOffered(requestId, roster, p.subject.value);
    }
  }

  /** What a rejection names was wrong, and everything that is looked at before it was not. */
  ghost predicate IsBreach(b: Breach, p: ProposedStanding, speaker: Option<string>, v: ParticipantVocabulary) {
    match b
    case UnknownRole => !HasRole(p)
    case UnknownSubjectKind => HasRole(p) && !HasKind(p)
    case SubjectRequired => HasRole(p) && AsksSubject(p) && p.subject.None?
    case SubjectNotOffered => HasRole(p) && HasKind(p) && p.subject.Some? && !Offers(v, p.subject.value)
    case SpeakerNotPermitted =>
      && HasRole(p) && HasKind(p) && (AsksSubject(p) ==> p.subject.Some?)
      && (p.subject.Some? ==> Offers(v, p.subject.value)) && speaker.Some? && !Knows(v, speaker.value)
  }

  ghost predicate HasRole(p: ProposedStanding) { exists r :: RoleText(r, p.role) }

  ghost predicate HasKind(p: ProposedStanding) { exists k :: KindText(k, p.subjectKind) }

  predicate AsksSubject(p: ProposedStanding) {
    KindText(PARTICIPANT, p.subjectKind) || KindText(THIRD_PARTY, p.subjectKind)
  }

  lemma BreachWhen(p: ProposedStanding, speaker: Option<string>, v: ParticipantVocabulary)
    requires CompleteStanding(Some(p), speaker, v).Rejected?
    requires p.role in ROLES <==> HasRole(p)
    requires p.subjectKind in SUBJECT_KINDS <==> HasKind(p)
    requires p.subjectKind in SUBJECT_KINDS ==> (NeedsSubject(SUBJECT_KINDS[p.subjectKind]) <==> AsksSubject(p))
    requires p.subject.Some? ==> (Resolve(v.entries, p.subject.value).Some? <==> Offers(v, p.subject.value))
    ensures IsBreach(CompleteStanding(Some(p), speaker, v).breach, p, speaker, v)
  {
  }

  /** Each rejection says what was wrong first. */
  lemma BreachIs(p: ProposedStanding, speaker: Option<string>, requestId: string, roster: seq<string>)
    requires CompleteStanding(Some(p), speaker, Build(requestId, roster)).Rejected?
    ensures var v := Build(requestId, roster);
            IsBreach(CompleteStanding(Some(p), speaker, v).breach, p, speaker, v)
  {
    RoleIsTabled(p.role);
    KindIsTabled(p.subjectKind);
    NeedsIs(p.subjectKind);
    if p.subject.Some? {
      ResolvesOnlyOffered(requestId, roster, p.subject.value);
    }
    BreachWhen(p, speaker, Build(requestId, roster));
  }

  predicate LabelsSubject(p: ProposedStanding, requestId: string, i: nat) {
    p.subject.Some? && IsLabel(requestId, i, p.subject.value)
  }

  /** The role and the kind of subject are the proposed ones, and the subject is whoever the proposed label stands
      for: label i of the request, the i-th of the sorted roster. */
  lemma CompletedAsProposed(p: ProposedStanding, speaker: Option<string>, requestId: string, roster: seq<string>)
    requires CompleteStanding(Some(p), speaker, Build(requestId, roster)).Complete?
    ensures var s := CompleteStanding(Some(p), speaker, Build(requestId, roster)).s;
            && RoleText(s.role, p.role) && KindText(s.subjectKind, p.subjectKind)
            && (s.subjectId.Some? <==> p.subject.Some?)
            && forall i :: 1 <= i <= |SortedDistinct(roster)| && LabelsSubject(p, requestId, i) ==>
                 s.subjectId == Some(SortedDistinct(roster)[i - 1])
  {
    var s := CompleteStanding(Some(p), speaker, Build(requestId, roster)).s;
    RolesAre(p.role, s.role);
    KindsAre(p.subjectKind, s.subjectKind);
    if p.subject.Some? {
      LabelReads(requestId, roster, p.subject.value);
    }
  }

  /** A completed standing says who spoke only from the transcript and names only someone authorized,
      and the domain constructor takes it; when the roster has no empty id, completion never ends in
      a constructor failure. */
  lemma CompletedIsSound(proposed: Option<ProposedStanding>, speaker: Option<string>, requestId: string,
                         roster: seq<string>)
    ensures var r := CompleteStanding(proposed, speaker, Build(requestId, roster));
            && (r.Complete? ==>
                  && Accepts(EvidenceStanding, Attributes(r.s))
                  && r.s.sourceId == speaker
                  && r.s.sourceKind == (if speaker.Some? then PARTICIPANT else SYSTEM_SURFACE)
                  && (speaker.Some? ==> speaker.value in roster)
                  && (r.s.subjectId.Some? ==> r.s.subjectId.value in roster))
            && ("" !in roster ==> !r.Invalid?)
  {
    if proposed.Some? {
      if proposed.value.subject.Some? {
        ResolvesOnlyOffered(requestId, roster, proposed.value.subject.value);
      }
      if speaker.Some? {
        RosterIs(requestId, roster, speaker.value);
      }
      InvalidExactly(proposed.value, speaker, requestId, roster);
    }
  }

  /** The constructor failure, exactly: a permitted proposal whose speaker, or whose needed subject, is
      the empty id. */
  lemma InvalidExactly(p: ProposedStanding, speaker: Option<string>, requestId: string, roster: seq<string>)
    ensures var v := Build(requestId, roster);
            CompleteStanding(Some(p), speaker, v).Invalid? <==>
              Permitted(p, speaker, v)
              && (speaker == Some("")
                  || ((KindText(PARTICIPANT, p.subjectKind) || KindText(THIRD_PARTY, p.subjectKind))
                      && Resolve(v.entries, p.subject.value) == Some("")))
  {
    InvalidWhen(p, speaker, requestId, roster);
    PermittedIs(p, speaker, Build(requestId, roster));
    NeedsIs(p.subjectKind);
  }

  lemma NeedsIs(text: string)
    ensures text in SUBJECT_KINDS ==>
              (NeedsSubject(SUBJECT_KINDS[text]) <==> KindText(PARTICIPANT, text) || KindText(THIRD_PARTY, text))
  {
    KindsAre(text, PARTICIPANT);
    KindsAre(text, THIRD_PARTY);
  }

  lemma InvalidWhen(p: ProposedStanding, speaker: Option<string>, requestId: string, roster: seq<string>)
    ensures var v := Build(requestId, roster);
            CompleteStanding(Some(p), speaker, v).Invalid? <==>
              Tabled(p, speaker, v)
              && (speaker == Some("")
                  || (NeedsSubject(SUBJECT_KINDS[p.subjectKind]) && Resolve(v.entries, p.subject.value) == Some("")))
  {
    var v := Build(requestId, roster);
    RejectedWhen(p, speaker, requestId, roster);
    if Tabled(p, speaker, v) {
      var subject := if p.subject.Some? then Resolve(v.entries, p.subject.value) else None;
      if p.subject.Some? {
        ResolvesOnlyOffered(requestId, roster, p.subject.value);
      }
      AcceptedExactly(CompletedStanding(if speaker.Some? then PARTICIPANT else SYSTEM_SURFACE,
                                        SUBJECT_KINDS[p.subjectKind], ROLES[p.role], speaker, subject));
    }
  }
}
