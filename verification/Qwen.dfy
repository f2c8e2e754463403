/** The client that puts every model call of a run on the record, and the local backend behind it. */
module Qwen {
  import opened Domain
  import opened Failures
  import opened Manifest
  import opened Texts

  /** The thunk's wrapping: a model error passes with its type, any other `Exception` becomes one, and
      what is not an `Exception` passes through. */
  function Wrap(o: Outcome): Outcome {
    if o.Text? || o.e.Is(ModelError) || !o.e.Is(Exception) then o
    else Raised(MakeModelError(o.e.name + ": " + o.e.detail))
  }

  /** No `Exception` escapes the record. */
  lemma EveryExceptionIsRecorded(o: Outcome, retries: int)
    requires o.Raised? ==> o.e.WellTyped()
    ensures EndingOf(Wrap(o), retries).Some? <==> (o.Raised? ==> o.e.Is(Exception))
  {
  }

  /** A reply is recorded malformed, with its raw text and without a retry, exactly when its exception is
      both malformed and a model error.  A bare malformed error is downgraded: recorded as a model
      error, its raw text dropped, and retried. */
  lemma MalformedNeedsBoth(e: Exc, retries: int)
    requires e.WellTyped() && e.Is(Exception)
    ensures var end := EndingOf(Wrap(Raised(e)), retries);
            && end.Some?
            && (end.value.status == MALFORMED_OUTPUT <==> e.Is(MalformedOutputError) && e.Is(ModelError))
            && (end.value.status == MALFORMED_OUTPUT ==>
                  end.value.raw == e.raw && end.value.detail == e.detail && !Retryable(Wrap(Raised(e))))
            && (e.Is(MalformedOutputError) && !e.Is(ModelError) ==>
                  Retryable(Wrap(Raised(e))) && end.value.raw == None
                  && end.value.status == (if retries > 0 then RETRY_EXHAUSTED else MODEL_ERROR))
  {
  }

  /** One call as its caller saw it. */
  datatype Exchange = Exchange(seqLabel: string, result: Outcome)

  /** Ended in something that is not an `Exception`: a KeyboardInterrupt, a SystemExit. */
  predicate Interrupted(x: Exchange) { x.result.Raised? && !x.result.e.Is(Exception) }

  /** Ended in an `Exception`. */
  predicate FailedCall(x: Exchange) { x.result.Raised? && x.result.e.Is(Exception) }

  predicate Refused(x: Exchange) { x.result == Raised(SEALED) }

  predicate Recorded(x: Exchange) { !Interrupted(x) && !Refused(x) }

  /** The calls that left a record. */
  function Kept(xs: seq<Exchange>): seq<Exchange> {
    if xs == [] then []
    else Kept(xs[..|xs| - 1]) + if Recorded(xs[|xs| - 1]) then [xs[|xs| - 1]] else []
  }

  lemma {:induction false} KeptHas(xs: seq<Exchange>, x: Exchange)
    ensures x in Kept(xs) <==> x in xs && Recorded(x)
  {
    if xs != [] {
      KeptHas(xs[..|xs| - 1], x);
      assert xs == xs[..|xs| - 1] + [xs[|xs| - 1]];
    }
  }

  lemma KeptAppend(xs: seq<Exchange>, x: Exchange)
    ensures Kept(xs + [x]) == Kept(xs) + if Recorded(x) then [x] else []
  {
    assert (xs + [x])[..|xs|] == xs;
  }

  /** The record of a call and what its caller got. */
  ghost predicate Tells(record: CallRecord, x: Exchange) {
    && record.seqLabel == x.seqLabel && record.attempts >= 1
    && (record.status == SUCCESS <==> x.result.Text?)
    && (x.result.Text? ==> record.raw == Some(x.result.text))
  }

  ghost predicate TellsAll(records: seq<CallRecord>, xs: seq<Exchange>) {
    |records| == |xs| && forall i :: 0 <= i < |records| ==> Tells(records[i], xs[i])
  }

  class QwenClient {
    const backend: Backend
    const manifest: RunManifestBuilder
    const retries: int
    var index: int
    var seqLabel: string
    ghost var history: seq<Exchange>

    /** `history` is every call of this client, recorded or not.  The recorded ones are on the record, once,
        in order, as they ended; before the manifest is sealed the others were all interrupted. */
    ghost predicate Valid()
      reads this, manifest
    {
      && backend.Typed()
      && TellsAll(manifest.calls, Kept(history))
      && (!manifest.finalized ==> forall x :: x in history ==> !Refused(x))
    }

    constructor (backend: Backend, manifest: RunManifestBuilder, retries: int)
      requires manifest.calls == [] && backend.Typed()
      ensures this.backend == backend && this.manifest == manifest && this.retries == retries
      ensures index == 0 && seqLabel == "" && history == [] && Valid()
    {
      this.backend, this.manifest, this.retries := backend, manifest, retries;
      index, seqLabel, history := 0, "", [];
    }

    method BeginInteraction(index: int, seqLabel: string)
      requires Valid()
      modifies this`index, this`seqLabel
      ensures Valid() && this.index == index && this.seqLabel == seqLabel
    {
      this.index, this.seqLabel := index, seqLabel;
    }

    function Site(boundary: BoundaryKind, modelRole: string): CallSite
      reads this`index, this`seqLabel
    {
      CallSite(boundary, index, seqLabel, modelRole, NotProvidedByProvider, NotProvidedByProvider)
    }

    method CallBackend(site: CallSite) returns (r: Outcome)
      requires backend.Typed()
      modifies manifest`calls, backend`made
      ensures CallDone(backend.replies, Wrap, old(backend.made), backend.made, retries, site,
                       manifest.finalized, old(manifest.calls), manifest.calls, r)
      ensures r.Text? ==> r == backend.replies(backend.made - 1)
      ensures Refused(Exchange(site.seqLabel, r)) ==> manifest.finalized
      ensures var before, after, x := old(manifest.calls), manifest.calls, Exchange(site.seqLabel, r);
              if Recorded(x) then |after| == |before| + 1 && after[..|before|] == before && Tells(after[|before|], x)
              else after == before
    {
      r := CallWithRecording(manifest, backend, Wrap, site, retries);
      OneMoreTells(backend.replies, old(backend.made), backend.made, retries, site,
                   manifest.finalized, old(manifest.calls), manifest.calls, r);
    }

    /** At most retries + 1 requests, and exactly one record, whatever the backend answers or raises; only
        an interruption, or a sealed manifest, leaves no record, and neither returns text. */
    method GenerateRecorded(boundary: BoundaryKind, modelRole: string) returns (r: Outcome)
      requires Valid()
      modifies this`history, manifest`calls, backend`made
      ensures Valid()
      ensures CallDone(backend.replies, Wrap, old(backend.made), backend.made, retries, Site(boundary, modelRole),
                       manifest.finalized, old(manifest.calls), manifest.calls, r)
      ensures r.Text? ==> r == backend.replies(backend.made - 1)
      ensures history == old(history) + [Exchange(seqLabel, r)]
      ensures |manifest.calls| == |old(manifest.calls)| + if Recorded(Exchange(seqLabel, r)) then 1 else 0
      ensures Refused(Exchange(seqLabel, r)) ==> manifest.finalized
      ensures forall i :: |old(manifest.calls)| <= i < |manifest.calls| ==>
                Attributed(manifest.calls[i], boundary, index, seqLabel, modelRole)
    {
      r := CallBackend(Site(boundary, modelRole));
      NewAreAttributed(backend.replies, old(backend.made), backend.made, retries, Site(boundary, modelRole),
                       manifest.finalized, old(manifest.calls), manifest.calls, r);
      HistoryGrows(old(manifest.calls), manifest.calls, history, Exchange(seqLabel, r));
      history := history + [Exchange(seqLabel, r)];
    }
  }

  /** The record belongs to this interaction and boundary, and claims no session or cache of the provider's. */
  predicate Attributed(record: CallRecord, boundary: BoundaryKind, index: int, seqLabel: string, modelRole: string) {
    && record.boundary == boundary && record.interactionIndex == index && record.seqLabel == seqLabel
    && record.modelRole == modelRole
    && record.sessionId == NotProvidedByProvider && record.cacheId == NotProvidedByProvider
  }

  lemma NewAreAttributed(replies: nat -> Outcome, start: nat, made: nat, retries: int, site: CallSite, sealed: bool,
                         before: seq<CallRecord>, after: seq<CallRecord>, r: Outcome)
    requires CallDone(replies, Wrap, start, made, retries, site, sealed, before, after, r)
    requires site.sessionId == NotProvidedByProvider && site.cacheId == NotProvidedByProvider
    ensures forall i :: |before| <= i < |after| ==>
              Attributed(after[i], site.boundary, site.interactionIndex, site.seqLabel, site.modelRole)
  {
  }

  /** What a wrapped outcome leads to says whether it is recorded. */
  lemma SettledTells(o: Outcome, attempts: nat, retries: int, site: CallSite, sealed: bool,
                     before: seq<CallRecord>, after: seq<CallRecord>, r: Outcome)
    requires (o.Raised? ==> o.e.WellTyped()) && attempts >= 1
    requires Settles(Wrap(o), attempts, retries, site, sealed, before, after, r)
    ensures var x := Exchange(site.seqLabel, r);
            && (Refused(x) ==> sealed) && (r.Text? ==> r == o)
            && if Recorded(x) then |after| == |before| + 1 && after[..|before|] == before && Tells(after[|before|], x)
               else after == before
  {
    EveryExceptionIsRecorded(o, retries);
    if EndingOf(Wrap(o), retries).Some? {
      RecordTells(Wrap(o), retries);
    }
  }

  lemma HistoryGrows(before: seq<CallRecord>, after: seq<CallRecord>, history: seq<Exchange>, x: Exchange)
    requires TellsAll(before, Kept(history))
    requires if Recorded(x) then |after| == |before| + 1 && after[..|before|] == before && Tells(after[|before|], x)
             else after == before
    ensures TellsAll(after, Kept(history + [x]))
    ensures |after| == |before| + if Recorded(x) then 1 else 0
  {
    KeptAppend(history, x);
    if Recorded(x) {
      assert forall i :: 0 <= i < |before| ==> after[i] == after[..|before|][i];
    }
  }

  lemma OneMoreTells(replies: nat -> Outcome, start: nat, made: nat, retries: int,
                     site: CallSite, sealed: bool, before: seq<CallRecord>, after: seq<CallRecord>, r: Outcome)
    requires forall n: nat :: replies(n).Raised? ==> replies(n).e.WellTyped()
    requires CallDone(replies, Wrap, start, made, retries, site, sealed, before, after, r)
    ensures var x := Exchange(site.seqLabel, r);
            && (Refused(x) ==> sealed) && (r.Text? ==> r == replies(made - 1))
            && if Recorded(x) then |after| == |before| + 1 && after[..|before|] == before && Tells(after[|before|], x)
               else after == before
  {
    SettledTells(replies(made - 1), made - start, retries, site, sealed, before, after, r);
  }

  lemma TellsAt(records: seq<CallRecord>, xs: seq<Exchange>, x: Exchange)
    requires TellsAll(records, xs) && x in xs
    ensures CalledFor(records, x.seqLabel)
    ensures !x.result.Text? ==> exists i :: 0 <= i < |records| && Failing(records[i], x.seqLabel)
  {
    var i :| 0 <= i < |xs| && xs[i] == x;
    assert Tells(records[i], x);
  }

  lemma RecordsCome(records: seq<CallRecord>, xs: seq<Exchange>, i: nat)
    requires TellsAll(records, xs) && i < |records|
    ensures xs[i] in xs && xs[i].seqLabel == records[i].seqLabel
            && (records[i].status == SUCCESS <==> xs[i].result.Text?)
  {
    assert Tells(records[i], xs[i]);
  }

  /** Every call of an interaction meets a condition. */
  predicate AllCalls(xs: seq<Exchange>, seqLabel: string, meets: Exchange -> bool) {
    forall x :: x in xs && x.seqLabel == seqLabel ==> meets(x)
  }

  predicate GaveText(x: Exchange) { x.result.Text? }

  /** Whole-run status from the recorded calls alone. */
  lemma RecordedRun(started: set<string>, records: seq<CallRecord>, kept: seq<Exchange>, seqLabel: string)
    requires TellsAll(records, kept)
    ensures StatusOf(started, records, seqLabel) == Succeeded <==>
              && (seqLabel in started || exists x :: x in kept && x.seqLabel == seqLabel)
              && AllCalls(kept, seqLabel, GaveText)
    ensures StatusOf(started, records, seqLabel) == NotExecuted <==>
              seqLabel !in started && forall x :: x in kept ==> x.seqLabel != seqLabel
  {
    StatusIs(started, records, seqLabel);
    forall x | x in kept
      ensures CalledFor(records, x.seqLabel)
      ensures !x.result.Text? ==> exists i :: 0 <= i < |records| && Failing(records[i], x.seqLabel)
    {
      TellsAt(records, kept, x);
    }
    forall i | 0 <= i < |records|
      ensures kept[i] in kept && kept[i].seqLabel == records[i].seqLabel
      ensures records[i].status == SUCCESS <==> kept[i].result.Text?
    {
      RecordsCome(records, kept, i);
    }
  }

  /** The status of an interaction over every call that was made for it: success exactly when it was started
      or gave text at least once, and no call failed with an `Exception`; not executed exactly when it was
      not started and every call, if any, was interrupted. */
  lemma WholeRun(started: set<string>, records: seq<CallRecord>, xs: seq<Exchange>, seqLabel: string)
    requires TellsAll(records, Kept(xs)) && forall x :: x in xs ==> !Refused(x)
    ensures StatusOf(started, records, seqLabel) == Succeeded <==>
              && (seqLabel in started || exists x :: x in xs && x.seqLabel == seqLabel && GaveText(x))
              && AllCalls(xs, seqLabel, x => !FailedCall(x))
    ensures StatusOf(started, records, seqLabel) == NotExecuted <==>
              seqLabel !in started && AllCalls(xs, seqLabel, Interrupted)
  {
    RecordedRun(started, records, Kept(xs), seqLabel);
    forall x ensures x in Kept(xs) <==> x in xs && !Interrupted(x) {
      KeptHas(xs, x);
    }
  }

  /** So a status is what its reader takes it for, every call gave text or no call was made, exactly when no
      call of the interaction was interrupted. */
  lemma StatusIsMeant(started: set<string>, records: seq<CallRecord>, xs: seq<Exchange>, seqLabel: string)
    requires TellsAll(records, Kept(xs)) && forall x :: x in xs ==> !Refused(x)
    ensures StatusOf(started, records, seqLabel) == Succeeded ==>
              (AllCalls(xs, seqLabel, GaveText) <==> AllCalls(xs, seqLabel, x => !Interrupted(x)))
    ensures StatusOf(started, records, seqLabel) == NotExecuted ==>
              ((forall x :: x in xs ==> x.seqLabel != seqLabel) <==> AllCalls(xs, seqLabel, x => !Interrupted(x)))
  {
    WholeRun(started, records, xs, seqLabel);
  }

  const KEYBOARD_INTERRUPT := Exc("KeyboardInterrupt", {}, "", None)

  /** Where it is not: a call that gave text and then one that was interrupted read as success, and the
      interrupted call alone reads as never executed. */
  lemma InterruptedReadsAsSuccess(site: CallSite, text: string, retries: int)
    ensures var replies := (n: nat) => if n == 0 then Text(text) else Raised(KEYBOARD_INTERRUPT);
            var record := RecordOf(site, 1, Ending(SUCCESS, Some(text), ""));
            && CallDone(replies, Wrap, 0, 1, retries, site, false, [], [record], Text(text))
            && CallDone(replies, Wrap, 1, 2, retries, site, false, [record], [record], Raised(KEYBOARD_INTERRUPT))
            && StatusOf({}, [record], site.seqLabel) == Succeeded
            && CallDone(replies, Wrap, 1, 2, retries, site, false, [], [], Raised(KEYBOARD_INTERRUPT))
            && StatusOf({}, [], site.seqLabel) == NotExecuted
  {
    var record := RecordOf(site, 1, Ending(SUCCESS, Some(text), ""));
    assert [] + [record] == [record];
    assert [record][0].seqLabel == site.seqLabel;
    StatusIs({}, [record], site.seqLabel);
    StatusIs({}, [], site.seqLabel);
  }

  /** Sealing the manifest of a client, which happens once: one status per interaction of the transcript, and
      each is what the calls made for it, recorded or not, came to. */
  method Finish(client: QwenClient) returns (m: Option<RunManifest>)
    requires client.Valid()
    modifies client.manifest`finalized
    ensures client.Valid() && client.manifest.finalized
    ensures m.Some? <==> !old(client.manifest.finalized)
    ensures m.Some? ==>
              && m.value.interactions == client.manifest.interactions
              && m.value.calls == client.manifest.calls && TellsAll(m.value.calls, Kept(client.history))
              && |m.value.statuses| == |m.value.interactions|
    ensures m.Some? ==> forall i :: 0 <= i < |m.value.statuses| ==>
              m.value.statuses[i].0 == m.value.interactions[i].seqLabel
              && Meant(client.manifest.started, client.history, m.value.statuses[i].0, m.value.statuses[i].1)
  {
    m := client.manifest.Finalize();
    if m.Some? {
      forall i | 0 <= i < |m.value.statuses|
        ensures Meant(client.manifest.started, client.history, m.value.statuses[i].0, m.value.statuses[i].1)
      {
        WholeRun(client.manifest.started, client.manifest.calls, client.history, m.value.statuses[i].0);
      }
    }
  }

  /** The status of an interaction, given every call made for it. */
  ghost predicate Meant(started: set<string>, xs: seq<Exchange>, seqLabel: string, status: InteractionStatus) {
    && (status == Succeeded <==>
          && (seqLabel in started || exists x :: x in xs && x.seqLabel == seqLabel && GaveText(x))
          && AllCalls(xs, seqLabel, x => !FailedCall(x)))
    && (status == NotExecuted <==> seqLabel !in started && AllCalls(xs, seqLabel, Interrupted))
  }

  // ----- the local server backend -----

  /** What the server, or the transport, can do to one request. */
  datatype ServerReply =
    | Unreachable(timedOut: bool, reason: string)
    | Broken(e: Exc)
    | NotJson(reason: string)
    | NoChoices
    | NoContent
    | Reply(content: string, reasoning: Option<string>)

  const INVARIANT_DETAIL :=
    "runtime invariant violated: reasoning_content non-empty under enable_thinking=false " +
    "(server split reasoning off content)"

  function EnforceReasoningInvariant(content: string, reasoning: Option<string>): Outcome {
    if reasoning.Some? && !Blank(reasoning.value) then Raised(MakeInvariantViolation(INVARIANT_DETAIL, content))
    else Text(content)
  }

  /** `generate`: the transport's failures typed, then the invariant. */
  function LlamaOutcome(reply: ServerReply): Outcome {
    match reply
    case Unreachable(timedOut, reason) =>
      Raised(if timedOut then MakeModelTimeout("llama-server request timed out: " + reason)
             else MakeModelError("llama-server request failed: " + reason))
    case Broken(e) => Raised(e)
    case NotJson(reason) => Raised(MakeModelError("llama-server returned non-JSON: " + reason))
    case NoChoices => Raised(MakeModelError("llama-server response missing choices"))
    case NoContent => Raised(MakeModelError("llama-server response missing message.content"))
    case Reply(content, reasoning) => EnforceReasoningInvariant(content, reasoning)
  }

  /** Through client and manifest together: the server's content is recorded a success exactly when its
      reasoning is absent or blank; reasoning with any visible character is recorded malformed, with
      the content kept and no second request. */
  lemma ReasoningIsPoliced(content: string, reasoning: Option<string>, retries: int)
    ensures var o := Wrap(LlamaOutcome(Reply(content, reasoning)));
            && EndingOf(o, retries).Some? && !Retryable(o)
            && EndingOf(o, retries).value.raw == Some(content)
            && EndingOf(o, retries).value.status ==
                 (if reasoning.Some? && !Blank(reasoning.value) then MALFORMED_OUTPUT else SUCCESS)
  {
    if reasoning.Some? && !Blank(reasoning.value) {
      MalformedNeedsBoth(MakeInvariantViolation(INVARIANT_DETAIL, content), retries);
    }
  }
}
