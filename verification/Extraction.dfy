/** The extraction run: one request per spoken interaction, all of its observations or none, and
    engine ids counted across the whole transcript. */
module Extraction {
  import opened Domain
  import opened Failures
  import opened Texts
  import opened Participants
  import opened Standing
  import opened Validation

  datatype TranscriptInteraction = TranscriptInteraction(
    index: int, seqLabel: string, text: string, speaker: Option<string>)

  datatype Transcript = Transcript(transcriptId: string, interactions: seq<TranscriptInteraction>)

  /** What crosses to the model: the text and this request's labels, nothing else. */
  datatype ExtractionRequest = ExtractionRequest(text: string, participants: seq<string>)

  datatype ExtractedEvidence = ExtractedEvidence(
    ref: string, observation: ValidatedObservation, transcriptId: string, interactionIndex: int, seqLabel: string,
    extractorId: string, standing: Option<CompletedStanding>)

  /** A governed rejection, with the complete reply it rejects. */
  datatype Rejection = Rejection(breach: Breach, ref: string, raw: string)

  datatype Extraction = Extracted(items: seq<ExtractedEvidence>) | Rejects(rejection: Rejection) | Aborts(e: Exc)

  function RequestOf(transcriptId: string, ti: TranscriptInteraction): string { RequestId(transcriptId, ti.index) }

  /** `{transcript_id}:{index}:{k}`. */
  function Ref(transcriptId: string, ti: TranscriptInteraction, k: nat): string {
    RequestOf(transcriptId, ti) + ":" + Decimal(k)
  }

  function Labels(v: ParticipantVocabulary): seq<string> {
    seq(|v.entries|, i requires 0 <= i < |v.entries| => v.entries[i].name)
  }

  /** The external model: any replies at all, as a function of how often it was asked and what. */
  class Client {
    const reply: (nat, ExtractionRequest) -> Outcome
    var sent: seq<ExtractionRequest>

    constructor (reply: (nat, ExtractionRequest) -> Outcome)
      ensures this.reply == reply && sent == []
    {
      this.reply := reply;
      sent := [];
    }

    method Ask(request: ExtractionRequest) returns (o: Outcome)
      modifies this`sent
      ensures sent == old(sent) + [request] && o == reply(|old(sent)|, request)
    {
      o := reply(|sent|, request);
      sent := sent + [request];
    }
  }

  datatype Setup = Setup(
    transcriptId: string, extractorId: string, roster: seq<string>, parse: string -> Option<Reply>)
  {
    function Vocabulary(ti: TranscriptInteraction): ParticipantVocabulary { Build(RequestOf(transcriptId, ti), roster) }

    function Request(ti: TranscriptInteraction): ExtractionRequest {
      ExtractionRequest(ti.text, Labels(Vocabulary(ti)))
    }

    function Completion(ti: TranscriptInteraction, o: ValidatedObservation): Completion {
      CompleteStanding(o.standing, ti.speaker, Vocabulary(ti))
    }

    function Item(ti: TranscriptInteraction, k: nat, o: ValidatedObservation): ExtractedEvidence {
      var c := Completion(ti, o);
      ExtractedEvidence(Ref(transcriptId, ti, k), o, transcriptId, ti.index, ti.seqLabel, extractorId,
                        if c.Complete? then Some(c.s) else None)
    }
  }

  const INVALID_STANDING := Exc("InvariantViolation", {Exception}, "EvidenceStanding", None)
  const MALFORMED_REPLY := Exc("MalformedOutputError", PHASE1_CLASSES + {MalformedOutputError}, "evidence", None)

  /** Standing completed observation by observation; the first that cannot be decides for all. */
  function Stand(p: Setup, ti: TranscriptInteraction, raw: string, os: seq<ValidatedObservation>): Extraction {
    if os == [] then Extracted([]) else
    var k := |os| - 1;
    var init, c := Stand(p, ti, raw, os[..k]), p.Completion(ti, os[k]);
    if !init.Extracted? then init
    else match c
      case Rejected(breach) => Rejects(Rejection(breach, Ref(p.transcriptId, ti, |os|), raw))
      case Invalid => Aborts(INVALID_STANDING)
      case _ => Extracted(init.items + [p.Item(ti, |os|, os[k])])
  }

  /** What one interaction comes to, given the model's outcome for its request. */
  function Extract(p: Setup, ti: TranscriptInteraction, o: Outcome): Extraction {
    if Blank(ti.text) then Extracted([])
    else match o
      case Raised(e) => Aborts(e)
      case Text(raw) =>
        var j := p.parse(raw);
        if j.None? then Aborts(MALFORMED_REPLY)
        else match Validated(j.value)
          case Malformed => Aborts(MALFORMED_REPLY)
          case Ok(os) => Stand(p, ti, raw, os)
  }

  /** The observations a reply holds, when it is well formed. */
  function Reported(p: Setup, o: Outcome): Option<seq<ValidatedObservation>> {
    if o.Text? && p.parse(o.text).Some? && Validated(p.parse(o.text).value).Ok?
    then Some(Validated(p.parse(o.text).value).value) else None
  }

  /** Everything is extracted exactly when each standing is absent or complete, and then in order. */
  ghost predicate Stood(p: Setup, ti: TranscriptInteraction, raw: string, os: seq<ValidatedObservation>,
                        x: Extraction) {
    && (x.Extracted? <==> forall k :: 0 <= k < |os| ==> CanStand(p, ti, os[k]))
    && (x.Extracted? ==> |x.items| == |os| && forall k :: 0 <= k < |os| ==> x.items[k] == p.Item(ti, k + 1, os[k]))
    && (x.Rejects? ==> x.rejection.raw == raw)
  }

  predicate CanStand(p: Setup, ti: TranscriptInteraction, o: ValidatedObservation) {
    p.Completion(ti, o).Absent? || p.Completion(ti, o).Complete?
  }

  lemma {:induction false} StandIs(p: Setup, ti: TranscriptInteraction, raw: string, os: seq<ValidatedObservation>)
    ensures Stood(p, ti, raw, os, Stand(p, ti, raw, os))
  {
    if os != [] {
      var init, o := os[..|os| - 1], os[|os| - 1];
      StandIs(p, ti, raw, init);
      StandStep(p, ti, raw, init, o);
      StoodStep(p, ti, raw, init, o, Stand(p, ti, raw, init), Stand(p, ti, raw, init + [o]));
      assert os == init + [o];
    }
  }

  /** What one more observation does to what came before it. */
  predicate StandsNext(p: Setup, ti: TranscriptInteraction, raw: string, n: nat, o: ValidatedObservation,
                       before: Extraction, x: Extraction) {
    && (x.Extracted? <==> before.Extracted? && CanStand(p, ti, o))
    && (x.Extracted? ==> x.items == before.items + [p.Item(ti, n + 1, o)])
    && (x.Rejects? ==> x == before || x.rejection.raw == raw)
  }

  lemma StandStep(p: Setup, ti: TranscriptInteraction, raw: string, init: seq<ValidatedObservation>,
                  o: ValidatedObservation)
    ensures StandsNext(p, ti, raw, |init|, o, Stand(p, ti, raw, init), Stand(p, ti, raw, init + [o]))
  {
    assert (init + [o])[..|init|] == init;
  }

  lemma StoodStep(p: Setup, ti: TranscriptInteraction, raw: string, init: seq<ValidatedObservation>,
                  o: ValidatedObservation, before: Extraction, x: Extraction)
    requires Stood(p, ti, raw, init, before) && StandsNext(p, ti, raw, |init|, o, before, x)
    ensures Stood(p, ti, raw, init + [o], x)
  {
    var os := init + [o];
    assert os[|init|] == o && forall k :: 0 <= k < |init| ==> os[k] == init[k];
  }

  lemma {:induction false} StandValid(p: Setup, ti: TranscriptInteraction, raw: string, os: seq<ValidatedObservation>)
    requires "" !in p.roster
    ensures !Stand(p, ti, raw, os).Aborts?
  {
    if os != [] {
      var k := |os| - 1;
      StandValid(p, ti, raw, os[..k]);
      CompletedIsSound(os[k].standing, ti.speaker, RequestOf(p.transcriptId, ti), p.roster);
    }
  }

  /** All or nothing: an interaction carries every observation its reply reported, in order, with refs
      counted from one, or none of them and a rejection that keeps the reply. */
  lemma AllOrNothing(p: Setup, ti: TranscriptInteraction, o: Outcome)
    requires !Blank(ti.text)
    ensures var x := Extract(p, ti, o);
            && (x.Extracted? || x.Rejects? ==> Reported(p, o).Some?)
            && (x.Extracted? ==>
                  && |x.items| == |Reported(p, o).value|
                  && forall k :: 0 <= k < |x.items| ==> x.items[k] == p.Item(ti, k + 1, Reported(p, o).value[k]))
            && (x.Rejects? ==>
                  && x.rejection.raw == o.text
                  && exists k: nat :: FirstToFail(p, ti, Reported(p, o).value, k)
                                 && x.rejection.ref == Ref(p.transcriptId, ti, k + 1)
                                 && p.Completion(ti, Reported(p, o).value[k]) == Rejected(x.rejection.breach))
            && (Reported(p, o).None? ==> x.Aborts?)
            && (o.Raised? ==> x == Aborts(o.e))
            && (o.Text? && Reported(p, o).None? ==> x.e.Is(MalformedOutputError) && !x.e.Is(ModelError))
            && (Reported(p, o).Some? && "" !in p.roster ==> !x.Aborts?)
  {
    if Reported(p, o).Some? {
      var os := Reported(p, o).value;
      StandIs(p, ti, o.text, os);
      if !Stand(p, ti, o.text, os).Extracted? {
        var k := StandRejects(p, ti, o.text, os);
      }
      if "" !in p.roster {
        StandValid(p, ti, o.text, os);
      }
    }
  }

  /** The observation whose standing could not be completed, and none before it. */
  ghost predicate FirstToFail(p: Setup, ti: TranscriptInteraction, os: seq<ValidatedObservation>, k: nat) {
    k < |os| && !CanStand(p, ti, os[k]) && forall j :: 0 <= j < k ==> CanStand(p, ti, os[j])
  }

  lemma FailsFirst(p: Setup, ti: TranscriptInteraction, os: seq<ValidatedObservation>, o: ValidatedObservation, k: nat)
    requires FirstToFail(p, ti, os, k)
    ensures FirstToFail(p, ti, os + [o], k)
  {
  }

  /** The interaction ended on observation k: a rejection says why, names it by its place and keeps the reply. */
  ghost predicate EndedOn(p: Setup, ti: TranscriptInteraction, raw: string, o: ValidatedObservation, k: nat,
                          x: Extraction) {
    var c := p.Completion(ti, o);
    if c.Rejected? then x == Rejects(Rejection(c.breach, Ref(p.transcriptId, ti, k + 1), raw))
    else c.Invalid? && x == Aborts(INVALID_STANDING)
  }

  lemma EndsHere(p: Setup, ti: TranscriptInteraction, raw: string, init: seq<ValidatedObservation>,
                 o: ValidatedObservation)
    requires Stand(p, ti, raw, init).Extracted? && !Stand(p, ti, raw, init + [o]).Extracted?
    ensures !CanStand(p, ti, o) && EndedOn(p, ti, raw, o, |init|, Stand(p, ti, raw, init + [o]))
  {
    assert (init + [o])[..|init|] == init;
  }

  lemma EndedBefore(p: Setup, ti: TranscriptInteraction, raw: string, init: seq<ValidatedObservation>,
                    o: ValidatedObservation)
    requires !Stand(p, ti, raw, init).Extracted?
    ensures Stand(p, ti, raw, init + [o]) == Stand(p, ti, raw, init)
  {
    assert (init + [o])[..|init|] == init;
  }

  /** What ends an interaction early is the first observation whose standing could not be completed. */
  lemma {:induction false} StandRejects(p: Setup, ti: TranscriptInteraction, raw: string, os: seq<ValidatedObservation>)
      returns (k: nat)
    requires !Stand(p, ti, raw, os).Extracted?
    ensures FirstToFail(p, ti, os, k) && EndedOn(p, ti, raw, os[k], k, Stand(p, ti, raw, os))
  {
    var init, o := os[..|os| - 1], os[|os| - 1];
    assert os == init + [o];
    if Stand(p, ti, raw, init).Extracted? {
      k := |init|;
      StandIs(p, ti, raw, init);
      EndsHere(p, ti, raw, init, o);
    } else {
      k := StandRejects(p, ti, raw, init);
      FailsFirst(p, ti, init, o, k);
      EndedBefore(p, ti, raw, init, o);
    }
  }

  /** Every standing that leaves extraction satisfies the domain constructor, says who spoke as the
      transcript does, and names only the roster. */
  lemma StandingsAreSound(p: Setup, ti: TranscriptInteraction, k: nat, o: ValidatedObservation)
    ensures var s := p.Item(ti, k, o).standing;
            s.Some? ==> && Accepts(EvidenceStanding, Attributes(s.value)) && s.value.sourceId == ti.speaker
                        && (s.value.subjectId.Some? ==> s.value.subjectId.value in p.roster)
                        && o.standing.Some? && RoleText(s.value.role, o.standing.value.role)
                        && KindText(s.value.subjectKind, o.standing.value.subjectKind)
                        && (s.value.subjectId.Some? <==> o.standing.value.subject.Some?)
    ensures CanStand(p, ti, o) ==> (p.Item(ti, k, o).standing.Some? <==> o.standing.Some?)
  {
    if p.Completion(ti, o).Complete? {
      CompletedAsProposed(o.standing.value, ti.speaker, RequestOf(p.transcriptId, ti), p.roster);
    }
    CompletedIsSound(o.standing, ti.speaker, RequestOf(p.transcriptId, ti), p.roster);
  }

  class ExternalEvidenceExtractor {
    const client: Client
    const setup: Setup

    constructor (client: Client, setup: Setup)
      ensures this.client == client && this.setup == setup
    {
      this.client, this.setup := client, setup;
    }

    /** A hold asks nothing.  Otherwise one request, carrying only the text and the labels. */
    method Run(ti: TranscriptInteraction) returns (x: Extraction)
      modifies client`sent
      ensures client.sent == if Blank(ti.text) then old(client.sent) else old(client.sent) + [setup.Request(ti)]
      ensures x == Extract(setup, ti, client.reply(|old(client.sent)|, setup.Request(ti)))
    {
      if Blank(ti.text) {
        return Extracted([]);
      }
      var reply := client.Ask(setup.Request(ti));
      if reply.Raised? {
        return Aborts(reply.e);
      }
      var parsed := setup.parse(reply.text);
      if parsed.None? {
        return Aborts(MALFORMED_REPLY);
      }
      var checked := ValidateExtraction(parsed.value);
      if checked.Malformed? {
        return Aborts(MALFORMED_REPLY);
      }
      x := CompleteEach(ti, reply.text, checked.value);
    }

    /** The loop over the observations: the first whose standing is refused ends it. */
    method CompleteEach(ti: TranscriptInteraction, raw: string, os: seq<ValidatedObservation>) returns (x: Extraction)
      ensures x == Stand(setup, ti, raw, os)
    {
      var out: seq<ExtractedEvidence> := [];
      for k := 0 to |os|
        invariant Stand(setup, ti, raw, os[..k]) == Extracted(out)
      {
        assert os[..k + 1][..k] == os[..k];
        var c := setup.Completion(ti, os[k]);
        if c.Rejected? {
          x := Rejects(Rejection(c.breach, Ref(setup.transcriptId, ti, k + 1), raw));
          StandStays(setup, ti, raw, os, k + 1);
          return;
        }
        if c.Invalid? {
          StandStays(setup, ti, raw, os, k + 1);
          return Aborts(INVALID_STANDING);
        }
        out := out + [setup.Item(ti, k + 1, os[k])];
      }
      assert os[..|os|] == os;
      x := Extracted(out);
    }
  }

  lemma {:induction false} StandStays(p: Setup, ti: TranscriptInteraction, raw: string, os: seq<ValidatedObservation>,
                                      k: nat)
    requires k <= |os| && !Stand(p, ti, raw, os[..k]).Extracted?
    ensures Stand(p, ti, raw, os) == Stand(p, ti, raw, os[..k])
    decreases |os| - k
  {
    if k == |os| {
      assert os[..k] == os;
    } else {
      assert os[..k + 1][..k] == os[..k];
      StandStays(p, ti, raw, os, k + 1);
    }
  }

  // ----- the run -----

  /** What a piece of evidence is filed with: its engine id, and where it came from, as a line and as pairs. */
  datatype CaseEvidence = CaseEvidence(
    engineId: string, evidence: ExtractedEvidence, source: string, metadata: seq<(string, string)>)

  function SourceOf(e: ExtractedEvidence): string {
    "extractor:" + e.extractorId + "; transcript:" + e.transcriptId + "; interaction:" + Number(e.interactionIndex)
  }

  function MetadataOf(e: ExtractedEvidence): seq<(string, string)> {
    [("extractor_id", e.extractorId), ("transcript_id", e.transcriptId),
     ("source_interaction_index", Number(e.interactionIndex)), ("seq_label", e.seqLabel),
     ("extraction_status", "extracted"), ("text_span", SpanOf(e))]
  }

  function SpanOf(e: ExtractedEvidence): string {
    if e.observation.textSpan.Some? then e.observation.textSpan.value else ""
  }

  function FiledAs(n: nat, e: ExtractedEvidence): CaseEvidence {
    CaseEvidence(EngineId(n), e, SourceOf(e), MetadataOf(e))
  }

  /** The pairs lose nothing of where the evidence came from, but that no span and an empty one look alike. */
  lemma MetadataTraces(e: ExtractedEvidence, f: ExtractedEvidence)
    ensures MetadataOf(e) == MetadataOf(f) <==>
            && e.extractorId == f.extractorId && e.transcriptId == f.transcriptId
            && e.interactionIndex == f.interactionIndex && e.seqLabel == f.seqLabel && SpanOf(e) == SpanOf(f)
  {
    var a, b := MetadataOf(e), MetadataOf(f);
    if a == b {
      assert a[0].1 == b[0].1 && a[1].1 == b[1].1 && a[2].1 == b[2].1 && a[3].1 == b[3].1 && a[5].1 == b[5].1;
      NumberInjective(e.interactionIndex, f.interactionIndex);
    }
  }

  /** Every entry stands under its own name, and there are no others. */
  lemma MetadataSays(p: Setup, ti: TranscriptInteraction, k: nat, o: ValidatedObservation)
    ensures var pairs := MetadataOf(p.Item(ti, k, o));
            && ("extractor_id", p.extractorId) in pairs && ("transcript_id", p.transcriptId) in pairs
            && ("source_interaction_index", Number(ti.index)) in pairs && ("seq_label", ti.seqLabel) in pairs
            && ("text_span", if o.textSpan.Some? then o.textSpan.value else "") in pairs
            && ("extraction_status", "extracted") in pairs && |pairs| == 6
  {
    var e := p.Item(ti, k, o);
    MetadataPairs(e, MetadataOf(e));
  }

  lemma MetadataPairs(e: ExtractedEvidence, pairs: seq<(string, string)>)
    requires pairs == MetadataOf(e)
    ensures |pairs| == 6
    ensures pairs[0] == ("extractor_id", e.extractorId) && pairs[1] == ("transcript_id", e.transcriptId)
    ensures pairs[2] == ("source_interaction_index", Number(e.interactionIndex))
            && pairs[3] == ("seq_label", e.seqLabel)
    ensures pairs[4] == ("extraction_status", "extracted") && pairs[5] == ("text_span", SpanOf(e))
  {
  }

  /** The evidence is observation k of the turn, filed under that turn and numbered n. */
  predicate IsFiled(e: CaseEvidence, p: Setup, ti: TranscriptInteraction, n: nat, k: nat, o: ValidatedObservation) {
    && e.engineId == "evidence-" + Decimal(n)
    && e.evidence.ref == p.transcriptId + ":" + Number(ti.index) + ":" + Decimal(k)
    && e.evidence.interactionIndex == ti.index && e.evidence.seqLabel == ti.seqLabel
    && e.evidence.transcriptId == p.transcriptId && e.evidence.extractorId == p.extractorId
    && e.evidence.observation == o
    && e.source == "extractor:" + p.extractorId + "; transcript:" + p.transcriptId
                   + "; interaction:" + Number(ti.index)
    && e.metadata == MetadataOf(e.evidence)
  }

  lemma ItemIsFiled(p: Setup, ti: TranscriptInteraction, n: nat, k: nat, o: ValidatedObservation)
    ensures IsFiled(FiledAs(n, p.Item(ti, k, o)), p, ti, n, k, o)
  {
  }

  lemma NumberedAt(items: seq<ExtractedEvidence>, n: nat, k: nat)
    requires k < |items|
    ensures k < |Numbered(items, n)| && Numbered(items, n)[k] == FiledAs(n + k + 1, items[k])
  {
  }

  /** Every piece of evidence a turn yields is an observation of that turn's reply and filed under that turn. */
  lemma FiledUnderItsTurn(p: Setup, ti: TranscriptInteraction, o: Outcome, offset: nat, k: nat)
    requires k < |InteractionOf(ti, Extract(p, ti, o), offset).evidence|
    ensures Reported(p, o).Some? && k < |Reported(p, o).value|
    ensures IsFiled(InteractionOf(ti, Extract(p, ti, o), offset).evidence[k], p, ti, offset + k + 1, k + 1,
                    Reported(p, o).value[k])
  {
    var items := Items(Extract(p, ti, o));
    assert !Blank(ti.text) && Extract(p, ti, o).Extracted?;
    AllOrNothing(p, ti, o);
    NumberedAt(items, offset, k);
    ItemIsFiled(p, ti, offset + k + 1, k + 1, Reported(p, o).value[k]);
  }

  datatype ExtractionResult = ExtractionResult(index: int, seqLabel: string, items: seq<ExtractedEvidence>)

  datatype ExtractedCase = ExtractedCase(
    interactions: seq<CaseInteraction>, extractions: seq<ExtractionResult>, extractorId: string)

  function AuditEntry(ti: TranscriptInteraction, x: Extraction): ExtractionResult {
    ExtractionResult(ti.index, ti.seqLabel, Items(x))
  }

  /** The audit: what extraction gave for each interaction, rejected ones included. */
  function AuditOf(tis: seq<TranscriptInteraction>, xs: seq<Extraction>): seq<ExtractionResult>
    requires |tis| == |xs|
  {
    seq(|tis|, i requires 0 <= i < |tis| => AuditEntry(tis[i], xs[i]))
  }

  /** The audit and the case tell of the same evidence, and of none where a rejection is recorded. */
  lemma AuditMatches(tis: seq<TranscriptInteraction>, xs: seq<Extraction>, i: nat)
    requires i < |tis| == |xs|
    ensures var a, c := AuditOf(tis, xs)[i], CaseOf(tis, xs)[i];
            && a.index == c.index && a.seqLabel == c.seqLabel && |a.items| == |c.evidence|
            && (forall k :: 0 <= k < |a.items| ==> a.items[k] == c.evidence[k].evidence)
            && a.items == (if xs[i].Extracted? then xs[i].items else [])
            && (c.preRejection.Some? <==> xs[i].Rejects?)
               && (xs[i].Rejects? ==> c.preRejection == Some(xs[i].rejection))
            && a.index == tis[i].index && a.seqLabel == tis[i].seqLabel
  {
  }

  datatype CaseInteraction = CaseInteraction(
    index: int, seqLabel: string, evidence: seq<CaseEvidence>, preRejection: Option<Rejection>)

  function EngineId(n: nat): string { "evidence-" + Decimal(n) }

  function Items(x: Extraction): seq<ExtractedEvidence> { if x.Extracted? then x.items else [] }

  /** The items numbered on from `n`. */
  function Numbered(items: seq<ExtractedEvidence>, n: nat): seq<CaseEvidence> {
    seq(|items|, k requires 0 <= k < |items| => FiledAs(n + k + 1, items[k]))
  }

  /** How many items come before. */
  function Offset(xs: seq<Extraction>): nat {
    if xs == [] then 0 else Offset(xs[..|xs| - 1]) + |Items(xs[|xs| - 1])|
  }

  function InteractionOf(ti: TranscriptInteraction, x: Extraction, offset: nat): CaseInteraction {
    CaseInteraction(ti.index, ti.seqLabel, Numbered(Items(x), offset), if x.Rejects? then Some(x.rejection) else None)
  }

  /** The case an extraction run builds, interaction by interaction. */
  function CaseOf(tis: seq<TranscriptInteraction>, xs: seq<Extraction>): seq<CaseInteraction>
    requires |tis| == |xs|
  {
    seq(|tis|, i requires 0 <= i < |tis| => InteractionOf(tis[i], xs[i], Offset(xs[..i])))
  }

  function AllEvidence(cis: seq<CaseInteraction>): seq<CaseEvidence> {
    if cis == [] then [] else AllEvidence(cis[..|cis| - 1]) + cis[|cis| - 1].evidence
  }

  /** Read across interactions, the engine ids are evidence-1 to evidence-N with no gap and no repeat,
      whatever was rejected on the way. */
  lemma {:induction false} EngineIdsCount(tis: seq<TranscriptInteraction>, xs: seq<Extraction>)
    requires |tis| == |xs|
    ensures var all := AllEvidence(CaseOf(tis, xs));
            |all| == Offset(xs) && forall k :: 0 <= k < |all| ==> all[k].engineId == EngineId(k + 1)
    decreases |tis|
  {
    if tis != [] {
      var n := |tis| - 1;
      EngineIdsCount(tis[..n], xs[..n]);
      CasePrefix(tis, xs);
      assert xs[..n] == xs[..n];
    }
  }

  lemma CasePrefix(tis: seq<TranscriptInteraction>, xs: seq<Extraction>)
    requires |tis| == |xs| > 0
    ensures CaseOf(tis, xs)[..|tis| - 1] == CaseOf(tis[..|tis| - 1], xs[..|tis| - 1])
    ensures CaseOf(tis, xs)[|tis| - 1] == InteractionOf(tis[|tis| - 1], xs[|tis| - 1], Offset(xs[..|tis| - 1]))
  {
    var n := |tis| - 1;
    assert tis == tis[..n] + [tis[n]] && xs == xs[..n] + [xs[n]];
    CaseExtend(tis[..n], xs[..n], tis[n], xs[n]);
  }

  /** The number of a piece of evidence reads back out of its engine id. */
  lemma EngineIdReads(n: nat)
    ensures |EngineId(n)| > 9 && EngineId(n)[..9] == "evidence-"
    ensures (forall c :: c in EngineId(n)[9..] ==> IsDigit(c)) && ValueOf(EngineId(n)[9..]) == n
  {
    assert |"evidence-"| == 9 && EngineId(n)[9..] == Decimal(n);
    DecimalRoundTrip(n);
  }

  /** What is sent for an interaction: its text, and for each of the sorted roster the label that this interaction
      reads back as that participant. */
  lemma RequestIs(p: Setup, ti: TranscriptInteraction)
    ensures var r, roster := p.Request(ti), SortedDistinct(p.roster);
            && r.text == ti.text && |r.participants| == |roster|
            && forall i :: 0 <= i < |roster| ==>
                 && IsLabel(p.transcriptId + ":" + Number(ti.index), i + 1, r.participants[i])
                 && Resolve(p.Vocabulary(ti).entries, r.participants[i]) == Some(roster[i])
  {
    var r, roster, requestId := p.Request(ti), SortedDistinct(p.roster), RequestOf(p.transcriptId, ti);
    forall i | 0 <= i < |roster|
      ensures IsLabel(requestId, i + 1, r.participants[i])
      ensures Resolve(p.Vocabulary(ti).entries, r.participants[i]) == Some(roster[i])
    {
      EntryAt(requestId, p.roster, i);
      LabelReads(requestId, p.roster, r.participants[i]);
      assert IsLabel(requestId, i + 1, r.participants[i]);
    }
  }

  lemma EngineIdsDistinct(m: nat, n: nat)
    ensures EngineId(m) == EngineId(n) ==> m == n
  {
    if EngineId(m) == EngineId(n) {
      assert EngineId(m)[|"evidence-"|..] == Decimal(m) && EngineId(n)[|"evidence-"|..] == Decimal(n);
      DecimalInjective(m, n);
    }
  }

  /** Runs that differ in one interaction only. */
  predicate DifferOnlyAt(xs: seq<Extraction>, ys: seq<Extraction>, k: nat) {
    |xs| == |ys| && k < |xs| && forall i :: 0 <= i < |xs| && i != k ==> xs[i] == ys[i]
  }

  lemma {:induction false} OffsetShift(xs: seq<Extraction>, ys: seq<Extraction>, k: nat, i: nat)
    requires DifferOnlyAt(xs, ys, k) && i <= |xs|
    ensures Offset(xs[..i]) - Offset(ys[..i]) == if k < i then |Items(xs[k])| - |Items(ys[k])| else 0
    decreases i
  {
    if i > 0 {
      OffsetShift(xs, ys, k, i - 1);
      assert xs[..i][..i - 1] == xs[..i - 1] && ys[..i][..i - 1] == ys[..i - 1];
    }
  }

  /** Two versions of an interaction that differ in the numbering of their evidence only, which goes on from
      `m` in the one and from `n` in the other. */
  ghost predicate SameButIds(a: CaseInteraction, b: CaseInteraction, m: nat, n: nat) {
    && a.index == b.index && a.seqLabel == b.seqLabel && a.preRejection == b.preRejection
    && |a.evidence| == |b.evidence|
    && forall e :: 0 <= e < |a.evidence| ==>
         && a.evidence[e].evidence == b.evidence[e].evidence
         && a.evidence[e].engineId == EngineId(m + e + 1) && b.evidence[e].engineId == EngineId(n + e + 1)
  }

  lemma OffsetOnlyNumbers(ti: TranscriptInteraction, x: Extraction, m: nat, n: nat)
    ensures SameButIds(InteractionOf(ti, x, m), InteractionOf(ti, x, n), m, n)
  {
  }

  lemma CaseAt(tis: seq<TranscriptInteraction>, xs: seq<Extraction>, i: nat)
    requires i < |tis| == |xs|
    ensures CaseOf(tis, xs)[i] == InteractionOf(tis[i], xs[i], Offset(xs[..i]))
  {
  }

  /** A rejection touches its own interaction only: everywhere else the evidence and the rejections are
      the same, and the numbering is shifted by what the one interaction lost. */
  lemma RejectionIsLocal(tis: seq<TranscriptInteraction>, xs: seq<Extraction>, ys: seq<Extraction>, k: nat, i: nat)
    requires |tis| == |xs| && DifferOnlyAt(xs, ys, k) && i < |tis| && i != k
    ensures SameButIds(CaseOf(tis, xs)[i], CaseOf(tis, ys)[i], Offset(xs[..i]), Offset(ys[..i]))
    ensures Offset(xs[..i]) - Offset(ys[..i]) == if k < i then |Items(xs[k])| - |Items(ys[k])| else 0
  {
    OffsetShift(xs, ys, k, i);
    CaseAt(tis, xs, i);
    CaseAt(tis, ys, i);
    assert xs[i] == ys[i];
    OffsetOnlyNumbers(tis[i], xs[i], Offset(xs[..i]), Offset(ys[..i]));
  }

  /** How many requests the first interactions make. */
  function Asked(tis: seq<TranscriptInteraction>): nat {
    if tis == [] then 0 else Asked(tis[..|tis| - 1]) + if Blank(tis[|tis| - 1].text) then 0 else 1
  }

  /** What interaction i comes to in a run that starts after `start` requests. */
  function ExtractAt(p: Setup, reply: (nat, ExtractionRequest) -> Outcome, start: nat,
                     tis: seq<TranscriptInteraction>, i: nat): Extraction
    requires i < |tis|
  {
    Extract(p, tis[i], reply(start + Asked(tis[..i]), p.Request(tis[i])))
  }

  lemma OffsetExtend(xs: seq<Extraction>, x: Extraction)
    ensures Offset(xs + [x]) == Offset(xs) + |Items(x)|
  {
    assert (xs + [x])[..|xs|] == xs;
  }

  lemma CaseExtend(tis: seq<TranscriptInteraction>, xs: seq<Extraction>, ti: TranscriptInteraction, x: Extraction)
    requires |tis| == |xs|
    ensures CaseOf(tis + [ti], xs + [x]) == CaseOf(tis, xs) + [InteractionOf(ti, x, Offset(xs))]
  {
    var longer := CaseOf(tis + [ti], xs + [x]);
    forall i | 0 <= i < |tis| ensures longer[i] == CaseOf(tis, xs)[i] {
      CaseKept(tis, xs, ti, x, i);
    }
    CaseAt(tis + [ti], xs + [x], |tis|);
    assert (xs + [x])[..|xs|] == xs;
  }

  lemma CaseKept(tis: seq<TranscriptInteraction>, xs: seq<Extraction>, ti: TranscriptInteraction, x: Extraction, i: nat)
    requires i < |tis| == |xs|
    ensures CaseOf(tis + [ti], xs + [x])[i] == CaseOf(tis, xs)[i]
  {
    CaseAt(tis + [ti], xs + [x], i);
    CaseAt(tis, xs, i);
    assert (xs + [x])[..i] == xs[..i];
  }

  /** `evidence-{counter}`, counting on. */
  method AssignIds(items: seq<ExtractedEvidence>, before: nat) returns (evidence: seq<CaseEvidence>, counter: nat)
    ensures evidence == Numbered(items, before) && counter == before + |items|
  {
    counter, evidence := before, [];
    for k := 0 to |items|
      invariant counter == before + k && |evidence| == k
      invariant forall e :: 0 <= e < k ==> evidence[e] == FiledAs(before + e + 1, items[e])
    {
      counter := counter + 1;
      evidence := evidence + [FiledAs(counter, items[k])];
    }
  }

  lemma AskedExtend(tis: seq<TranscriptInteraction>, i: nat)
    requires i < |tis|
    ensures Asked(tis[..i + 1]) == Asked(tis[..i]) + if Blank(tis[i].text) then 0 else 1
  {
    assert tis[..i + 1][..i] == tis[..i];
  }

  /** What every interaction of a run comes to. */
  function Outcomes(p: Setup, reply: (nat, ExtractionRequest) -> Outcome, start: nat,
                    tis: seq<TranscriptInteraction>): seq<Extraction> {
    seq(|tis|, i requires 0 <= i < |tis| => ExtractAt(p, reply, start, tis, i))
  }

  ghost predicate Foretold(p: Setup, reply: (nat, ExtractionRequest) -> Outcome, start: nat,
                           tis: seq<TranscriptInteraction>, xs: seq<Extraction>)
  {
    |xs| == |tis| &&
    forall i {:trigger ExtractAt(p, reply, start, tis, i)} :: 0 <= i < |tis| ==>
        ExtractAt(p, reply, start, tis, i) == xs[i]
  }

  /** The optional hook `on_interaction_start`: what it was told. */
  class StartHook {
    var calls: seq<(int, string)>

    constructor ()
      ensures calls == []
    {
      calls := [];
    }

    method Start(index: int, seqLabel: string)
      modifies this
      ensures calls == old(calls) + [(index, seqLabel)]
    {
      calls := calls + [(index, seqLabel)];
    }
  }

  function Starts(tis: seq<TranscriptInteraction>): seq<(int, string)> {
    seq(|tis|, i requires 0 <= i < |tis| => (tis[i].index, tis[i].seqLabel))
  }

  /** One turn of the loop: the hook is told first, then the turn is extracted. */
  method RunAt(extractor: ExternalEvidenceExtractor, hook: StartHook?, tis: seq<TranscriptInteraction>, i: nat,
               ghost start: nat, ghost xs: seq<Extraction>)
      returns (x: Extraction)
    requires i < |tis| == |xs| && Foretold(extractor.setup, extractor.client.reply, start, tis, xs)
    requires |extractor.client.sent| == start + Asked(tis[..i])
    modifies extractor.client`sent, hook
    ensures x == xs[i] && |extractor.client.sent| == start + Asked(tis[..i + 1])
    ensures hook != null ==> hook.calls == old(hook.calls) + [(tis[i].index, tis[i].seqLabel)]
  {
    AskedExtend(tis, i);
    if hook != null {
      hook.Start(tis[i].index, tis[i].seqLabel);
    }
    x := extractor.Run(tis[i]);
    assert x == ExtractAt(extractor.setup, extractor.client.reply, start, tis, i);
  }

  /** The loop's locals after the first interactions. */
  ghost predicate Built(tis: seq<TranscriptInteraction>, xs: seq<Extraction>, i: nat, done: seq<CaseInteraction>,
                        audit: seq<ExtractionResult>, counter: nat)
    requires i <= |tis| == |xs|
  {
    done == CaseOf(tis[..i], xs[..i]) && audit == AuditOf(tis[..i], xs[..i]) && counter == Offset(xs[..i])
  }

  lemma BuiltNext(tis: seq<TranscriptInteraction>, xs: seq<Extraction>, i: nat, done: seq<CaseInteraction>,
                  audit: seq<ExtractionResult>, counter: nat)
    requires i < |tis| == |xs| && Built(tis, xs, i, done, audit, counter)
    ensures Built(tis, xs, i + 1, done + [InteractionOf(tis[i], xs[i], counter)], audit + [AuditEntry(tis[i], xs[i])],
                  counter + |Items(xs[i])|)
  {
    SliceNext(tis, i);
    SliceNext(xs, i);
    CaseExtend(tis[..i], xs[..i], tis[i], xs[i]);
    AuditExtend(tis[..i], xs[..i], tis[i], xs[i]);
    OffsetExtend(xs[..i], xs[i]);
  }

  lemma SliceNext<T>(s: seq<T>, i: nat)
    requires i < |s|
    ensures s[..i + 1] == s[..i] + [s[i]]
  {
  }

  lemma AuditExtend(tis: seq<TranscriptInteraction>, xs: seq<Extraction>, ti: TranscriptInteraction, x: Extraction)
    requires |tis| == |xs|
    ensures AuditOf(tis + [ti], xs + [x]) == AuditOf(tis, xs) + [AuditEntry(ti, x)]
  {
  }

  lemma BuiltAll(tis: seq<TranscriptInteraction>, xs: seq<Extraction>, done: seq<CaseInteraction>,
                 audit: seq<ExtractionResult>, counter: nat)
    requires |tis| == |xs| && Built(tis, xs, |tis|, done, audit, counter)
    ensures done == CaseOf(tis, xs) && audit == AuditOf(tis, xs)
  {
    assert tis[..|tis|] == tis && xs[..|xs|] == xs;
  }

  method CaseInteractionOf(ti: TranscriptInteraction, x: Extraction, counter: nat)
      returns (ci: CaseInteraction, after: nat)
    ensures ci == InteractionOf(ti, x, counter) && after == counter + |Items(x)|
  {
    var evidence;
    evidence, after := AssignIds(Items(x), counter);
    ci := CaseInteraction(ti.index, ti.seqLabel, evidence, if x.Rejects? then Some(x.rejection) else None);
  }

  /** No interaction ended the run. */
  predicate Unbroken(xs: seq<Extraction>) {
    xs == [] || (Unbroken(xs[..|xs| - 1]) && !xs[|xs| - 1].Aborts?)
  }

  lemma UnbrokenNext(xs: seq<Extraction>, i: nat)
    requires i < |xs|
    ensures Unbroken(xs[..i + 1]) <==> Unbroken(xs[..i]) && !xs[i].Aborts?
  {
    assert xs[..i + 1][..i] == xs[..i];
  }

  lemma {:induction false} UnbrokenIs(xs: seq<Extraction>)
    ensures Unbroken(xs) <==> forall i :: 0 <= i < |xs| ==> !xs[i].Aborts?
  {
    if xs != [] {
      UnbrokenIs(xs[..|xs| - 1]);
    }
  }

  /** How many interactions a run starts: all of them, or those up to the first that ends it. */
  function Started(xs: seq<Extraction>): (n: nat)
    ensures n <= |xs|
  {
    if xs == [] then 0 else if Unbroken(xs[..|xs| - 1]) then |xs| else Started(xs[..|xs| - 1])
  }

  lemma {:induction false} StartedIs(xs: seq<Extraction>, i: nat)
    requires i < |xs| && Unbroken(xs[..i]) && xs[i].Aborts?
    ensures Started(xs) == i + 1 && !Unbroken(xs)
  {
    UnbrokenNext(xs, i);
    if i < |xs| - 1 {
      var init := xs[..|xs| - 1];
      assert init[..i] == xs[..i];
      StartedIs(init, i);
    }
  }

  lemma StartedAll(xs: seq<Extraction>)
    requires Unbroken(xs)
    ensures Started(xs) == |xs|
  {
  }

  lemma StartsNext(tis: seq<TranscriptInteraction>, i: nat)
    requires i < |tis|
    ensures Starts(tis[..i + 1]) == Starts(tis[..i]) + [(tis[i].index, tis[i].seqLabel)]
  {
  }

  /** The loop of `build_extracted_case`, against what each interaction is bound to come to. */
  method BuildLoop(extractor: ExternalEvidenceExtractor, hook: StartHook?, tis: seq<TranscriptInteraction>,
                   ghost xs: seq<Extraction>)
      returns (r: Option<ExtractedCase>)
    requires |xs| == |tis|
    requires Foretold(extractor.setup, extractor.client.reply, |extractor.client.sent|, tis, xs)
    modifies extractor.client`sent, hook
    ensures r == if Unbroken(xs)
                 then Some(ExtractedCase(CaseOf(tis, xs), AuditOf(tis, xs), extractor.setup.extractorId)) else None
    ensures |extractor.client.sent| == |old(extractor.client.sent)| + Asked(tis[..Started(xs)])
    ensures hook != null ==> hook.calls == old(hook.calls) + Starts(tis[..Started(xs)])
  {
    ghost var start := |extractor.client.sent|;
    var interactions: seq<CaseInteraction> := [];
    var audit: seq<ExtractionResult> := [];
    var counter: nat := 0;
    for i := 0 to |tis|
      invariant |extractor.client.sent| == start + Asked(tis[..i])
      invariant hook != null ==> hook.calls == old(hook.calls) + Starts(tis[..i])
      invariant Unbroken(xs[..i])
      invariant Built(tis, xs, i, interactions, audit, counter)
    {
      StartsNext(tis, i);
      var x := RunAt(extractor, hook, tis, i, start, xs);
      if x.Aborts? {
        StartedIs(xs, i);
        return None;
      }
      UnbrokenNext(xs, i);
      BuiltNext(tis, xs, i, interactions, audit, counter);
      var ci;
      ci, counter := CaseInteractionOf(tis[i], x, counter);
      interactions, audit := interactions + [ci], audit + [AuditEntry(tis[i], x)];
    }
    assert tis[..|tis|] == tis && xs[..|xs|] == xs;
    BuiltAll(tis, xs, interactions, audit, counter);
    StartedAll(xs);
    r := Some(ExtractedCase(interactions, audit, extractor.setup.extractorId));
  }

  /** `build_extracted_case`; `None` is an exception that ends the run.  A rejection never is one.  Whichever it
      is, the hook was told of every interaction that was started, in order, and the model was asked once for
      each of them that says something. */
  method BuildExtractedCase(extractor: ExternalEvidenceExtractor, hook: StartHook?, tis: seq<TranscriptInteraction>)
      returns (r: Option<ExtractedCase>)
    modifies extractor.client`sent, hook
    ensures var xs := Outcomes(extractor.setup, extractor.client.reply, |old(extractor.client.sent)|, tis);
            && r == (if forall i :: 0 <= i < |xs| ==> !xs[i].Aborts?
                     then Some(ExtractedCase(CaseOf(tis, xs), AuditOf(tis, xs), extractor.setup.extractorId)) else None)
            && |extractor.client.sent| == |old(extractor.client.sent)| + Asked(tis[..Started(xs)])
            && (hook != null ==> hook.calls == old(hook.calls) + Starts(tis[..Started(xs)]))
  {
    ghost var xs := Outcomes(extractor.setup, extractor.client.reply, |extractor.client.sent|, tis);
    r := BuildLoop(extractor, hook, tis, xs);
    UnbrokenIs(xs);
  }
}
