/** The run manifest: an accumulator of call records, sealed once, and the loop that runs one call. */
module Manifest {
  import opened Domain
  import opened Failures

  datatype BoundaryKind =
    | EVIDENCE_EXTRACTION | EVIDENCE_APPRAISAL | STATELESS_BASELINE | TRANSCRIPT_BASELINE | IDENTITY_RESOLUTION

  datatype Maybe = Available(value: string) | NotProvidedByProvider | NotCaptured

  datatype CallRecord = CallRecord(
    boundary: BoundaryKind, interactionIndex: int, seqLabel: string, modelRole: string,
    status: CallStatus, attempts: nat, raw: Option<string>, detail: string,
    sessionId: Maybe, cacheId: Maybe)

  datatype Interaction = Interaction(index: int, seqLabel: string, text: string)

  datatype InteractionStatus = Succeeded | NotExecuted | Failed(status: CallStatus)

  datatype RunManifest = RunManifest(
    interactions: seq<Interaction>, calls: seq<CallRecord>, statuses: seq<(string, InteractionStatus)>)

  // ----- what a status means -----

  predicate CalledFor(calls: seq<CallRecord>, seqLabel: string) {
    exists i :: 0 <= i < |calls| && calls[i].seqLabel == seqLabel
  }

  predicate Failing(r: CallRecord, seqLabel: string) { r.seqLabel == seqLabel && r.status != SUCCESS }

  /** The status of the first failing call of an interaction, in call order. */
  function FirstFailure(calls: seq<CallRecord>, seqLabel: string): Option<CallStatus> {
    if calls == [] then None else
    var earlier, last := FirstFailure(calls[..|calls| - 1], seqLabel), calls[|calls| - 1];
    if earlier.Some? then earlier else if Failing(last, seqLabel) then Some(last.status) else None
  }

  function StatusOf(started: set<string>, calls: seq<CallRecord>, seqLabel: string): InteractionStatus {
    if seqLabel !in started && !CalledFor(calls, seqLabel) then NotExecuted
    else if FirstFailure(calls, seqLabel).Some? then Failed(FirstFailure(calls, seqLabel).value)
    else Succeeded
  }

  lemma {:induction false} NoFailure(calls: seq<CallRecord>, seqLabel: string)
    ensures FirstFailure(calls, seqLabel).None? <==> forall i :: 0 <= i < |calls| ==> !Failing(calls[i], seqLabel)
  {
    if calls != [] {
      NoFailure(calls[..|calls| - 1], seqLabel);
    }
  }

  /** A failing call with none before it is the one reported. */
  lemma {:induction false} FirstFailureIs(calls: seq<CallRecord>, seqLabel: string, i: nat)
    requires i < |calls| && Failing(calls[i], seqLabel)
    requires forall j :: 0 <= j < i ==> !Failing(calls[j], seqLabel)
    ensures FirstFailure(calls, seqLabel) == Some(calls[i].status)
    decreases |calls|
  {
    var n := |calls| - 1;
    if i < n {
      FirstFailureIs(calls[..n], seqLabel, i);
    } else {
      NoFailure(calls[..n], seqLabel);
    }
  }

  /** The three statuses of a finalized interaction, each with its exact condition. */
  lemma StatusIs(started: set<string>, calls: seq<CallRecord>, seqLabel: string)
    ensures StatusOf(started, calls, seqLabel) == NotExecuted <==>
              seqLabel !in started && forall i :: 0 <= i < |calls| ==> calls[i].seqLabel != seqLabel
    ensures StatusOf(started, calls, seqLabel) == Succeeded <==>
              (seqLabel in started || CalledFor(calls, seqLabel))
              && forall i :: 0 <= i < |calls| && calls[i].seqLabel == seqLabel ==> calls[i].status == SUCCESS
    ensures forall s :: StatusOf(started, calls, seqLabel) == Failed(s) <==> FirstFailure(calls, seqLabel) == Some(s)
    ensures forall s :: StatusOf(started, calls, seqLabel) == Failed(s) ==> s != SUCCESS
  {
    NoFailure(calls, seqLabel);
    if seqLabel !in started && !CalledFor(calls, seqLabel) {
      assert forall i :: 0 <= i < |calls| ==> !Failing(calls[i], seqLabel);
    }
    FailureFails(calls, seqLabel);
  }

  lemma {:induction false} FailureFails(calls: seq<CallRecord>, seqLabel: string)
    ensures FirstFailure(calls, seqLabel) != Some(SUCCESS)
  {
    if calls != [] {
      FailureFails(calls[..|calls| - 1], seqLabel);
    }
  }

  lemma FirstFailureNext(calls: seq<CallRecord>, seqLabel: string, i: nat)
    requires i < |calls|
    ensures FirstFailure(calls[..i + 1], seqLabel) ==
            var earlier := FirstFailure(calls[..i], seqLabel);
            if earlier.Some? then earlier
            else if Failing(calls[i], seqLabel) then Some(calls[i].status) else None
  {
    assert calls[..i + 1][..i] == calls[..i];
  }

  class RunManifestBuilder {
    const interactions: seq<Interaction>
    var calls: seq<CallRecord>
    var started: set<string>
    var finalized: bool

    constructor (interactions: seq<Interaction>)
      ensures this.interactions == interactions
      ensures calls == [] && started == {} && !finalized
    {
      this.interactions := interactions;
      calls, started, finalized := [], {}, false;
    }

    /** False is the Phase1Error of a sealed builder. */
    method RecordCall(record: CallRecord) returns (ok: bool)
      modifies this`calls
      ensures ok == !finalized
      ensures calls == if ok then old(calls) + [record] else old(calls)
    {
      if finalized {
        return false;
      }
      calls := calls + [record];
      ok := true;
    }

    method MarkStarted(seqLabel: string) returns (ok: bool)
      modifies this`started
      ensures ok == !finalized
      ensures started == if ok then old(started) + {seqLabel} else old(started)
    {
      if finalized {
        return false;
      }
      started := started + {seqLabel};
      ok := true;
    }

    /** The three passes: who was called, who failed first and how, and one status per interaction. */
    method PerInteractionStatus() returns (out: seq<(string, InteractionStatus)>)
      ensures |out| == |interactions|
      ensures forall i :: 0 <= i < |out| ==>
                out[i] == (interactions[i].seqLabel, StatusOf(started, calls, interactions[i].seqLabel))
    {
      var executed := started;
      var failures: map<string, CallStatus> := map[];
      for i := 0 to |calls|
        invariant forall s :: s in executed <==> s in started || CalledFor(calls[..i], s)
        invariant forall s :: FirstFailure(calls[..i], s) == if s in failures then Some(failures[s]) else None
      {
        var record := calls[i];
        forall s ensures FirstFailure(calls[..i + 1], s) ==
          (if FirstFailure(calls[..i], s).Some? then FirstFailure(calls[..i], s)
           else if Failing(record, s) then Some(record.status) else None)
        {
          FirstFailureNext(calls, s, i);
        }
        CalledNext(calls, i);
        executed := executed + {record.seqLabel};
        if record.status != SUCCESS && record.seqLabel !in failures {
          failures := failures[record.seqLabel := record.status];
        }
      }
      assert calls[..|calls|] == calls;
      out := [];
      for i := 0 to |interactions|
        invariant |out| == i
        invariant forall k :: 0 <= k < i ==>
                    out[k] == (interactions[k].seqLabel, StatusOf(started, calls, interactions[k].seqLabel))
      {
        var s := interactions[i].seqLabel;
        var status := if s !in executed then NotExecuted else if s in failures then Failed(failures[s]) else Succeeded;
        out := out + [(s, status)];
      }
    }

    /** Exactly once: afterwards the builder accepts nothing more, and the manifest is a value. */
    method Finalize() returns (m: Option<RunManifest>)
      modifies this`finalized
      ensures finalized
      ensures m.Some? <==> !old(finalized)
      ensures m.Some? ==>
                && m.value.interactions == interactions && m.value.calls == calls
                && |m.value.statuses| == |interactions|
                && forall i :: 0 <= i < |interactions| ==>
                     m.value.statuses[i] ==
                     (interactions[i].seqLabel, StatusOf(started, calls, interactions[i].seqLabel))
    {
      if finalized {
        return None;
      }
      finalized := true;
      var statuses := PerInteractionStatus();
      m := Some(RunManifest(interactions, calls, statuses));
    }
  }

  lemma CalledNext(calls: seq<CallRecord>, i: nat)
    requires i < |calls|
    ensures forall s :: CalledFor(calls[..i + 1], s) <==> CalledFor(calls[..i], s) || s == calls[i].seqLabel
  {
    assert calls[..i + 1] == calls[..i] + [calls[i]];
    forall s | CalledFor(calls[..i], s) || s == calls[i].seqLabel
      ensures CalledFor(calls[..i + 1], s)
    {
      if s == calls[i].seqLabel {
        assert calls[..i + 1][i].seqLabel == s;
      } else {
        var k :| 0 <= k < |calls[..i]| && calls[..i][k].seqLabel == s;
        assert calls[..i + 1][k].seqLabel == s;
      }
    }
  }

  // ----- one call -----

  /** A model backend: any stream of outcomes at all. */
  class Backend {
    const replies: nat -> Outcome
    var made: nat

    /** Whatever it raises is an instance of its classes' base classes too. */
    ghost predicate Typed() { forall n: nat :: replies(n).Raised? ==> replies(n).e.WellTyped() }

    constructor (replies: nat -> Outcome)
      ensures this.replies == replies && made == 0
    {
      this.replies := replies;
      made := 0;
    }

    method Generate() returns (o: Outcome)
      modifies this`made
      ensures made == old(made) + 1 && o == replies(old(made))
    {
      o := replies(made);
      made := made + 1;
    }
  }

  /** Caught by `except ModelError`, not already by `except MalformedOutputError`. */
  predicate Retryable(o: Outcome) { o.Raised? && !o.e.Is(MalformedOutputError) && o.e.Is(ModelError) }

  /** A reply as the thunk passes it on. */
  function Seen(replies: nat -> Outcome, wrap: Outcome -> Outcome, k: nat): Outcome { wrap(replies(k)) }

  /** The loop stops after the request before `made`: everything before was retryable, and this one either
      is not or is the last one allowed.  Zero or negative retries still make one attempt. */
  ghost predicate StopsAt(replies: nat -> Outcome, wrap: Outcome -> Outcome, start: nat, made: nat, retries: int) {
    && start < made && (made == start + 1 || made <= start + retries + 1)
    && (forall k: nat :: start <= k < made - 1 ==> Retryable(Seen(replies, wrap, k)))
    && (made < start + retries + 1 ==> !Retryable(Seen(replies, wrap, made - 1)))
  }

  /** The stream alone decides where that is. */
  lemma StopsOnce(replies: nat -> Outcome, wrap: Outcome -> Outcome, start: nat, m: nat, n: nat, retries: int)
    requires StopsAt(replies, wrap, start, m, retries) && StopsAt(replies, wrap, start, n, retries)
    ensures m == n
  {
  }

  datatype Ending = Ending(status: CallStatus, raw: Option<string>, detail: string)

  /** What is recorded for the deciding outcome; nothing for what neither clause catches. */
  function EndingOf(o: Outcome, retries: int): Option<Ending> {
    match o
    case Text(text) => Some(Ending(SUCCESS, Some(text), ""))
    case Raised(e) =>
      if e.Is(MalformedOutputError) then Some(Ending(MALFORMED_OUTPUT, e.raw, e.detail))
      else if e.Is(ModelError) then Some(Ending(if retries > 0 then RETRY_EXHAUSTED else Classify(e), None, e.detail))
      else None
  }

  /** What the caller of the loop gets for it. */
  function Delivered(o: Outcome, retries: int): Outcome {
    if Retryable(o) && retries > 0 then Raised(MakeRetryExhausted(o.e.detail)) else o
  }

  /** Which call this is. */
  datatype CallSite = CallSite(
    boundary: BoundaryKind, interactionIndex: int, seqLabel: string, modelRole: string, sessionId: Maybe,
    cacheId: Maybe)

  function RecordOf(site: CallSite, attempts: nat, end: Ending): CallRecord {
    CallRecord(site.boundary, site.interactionIndex, site.seqLabel, site.modelRole,
               end.status, attempts, end.raw, end.detail, site.sessionId, site.cacheId)
  }

  const SEALED := MakePhase1Error("cannot record a call on a finalized manifest")

  /** Everything one call does: how often it asks, what it records, what it returns or raises. */
  ghost predicate CallDone(replies: nat -> Outcome, wrap: Outcome -> Outcome, start: nat, made: nat, retries: int,
                           site: CallSite, sealed: bool, before: seq<CallRecord>, after: seq<CallRecord>, r: Outcome) {
    && StopsAt(replies, wrap, start, made, retries)
    && Settles(Seen(replies, wrap, made - 1), made - start, retries, site, sealed, before, after, r)
  }

  /** What the deciding outcome leads to. */
  ghost predicate Settles(o: Outcome, attempts: nat, retries: int, site: CallSite, sealed: bool,
                          before: seq<CallRecord>, after: seq<CallRecord>, r: Outcome) {
    var end := EndingOf(o, retries);
    if end.None? then after == before && r == o
    else if sealed then after == before && r == Raised(SEALED)
    else after == before + [RecordOf(site, attempts, end.value)] && r == Delivered(o, retries)
  }

  /** Site, stream and manifest fix everything about a call. */
  lemma CallIsDetermined(replies: nat -> Outcome, wrap: Outcome -> Outcome, start: nat, m: nat, n: nat, retries: int,
                         site: CallSite, sealed: bool, before: seq<CallRecord>, after: seq<CallRecord>, r: Outcome,
                         after': seq<CallRecord>, r': Outcome)
    requires CallDone(replies, wrap, start, m, retries, site, sealed, before, after, r)
    requires CallDone(replies, wrap, start, n, retries, site, sealed, before, after', r')
    ensures m == n && after == after' && r == r'
  {
    StopsOnce(replies, wrap, start, m, n, retries);
  }

  /** A record that is written says what the caller got: success exactly when text was returned, and
      then that text. */
  lemma RecordTells(o: Outcome, retries: int)
    requires EndingOf(o, retries).Some?
    ensures EndingOf(o, retries).value.status == SUCCESS <==> Delivered(o, retries).Text?
    ensures Delivered(o, retries).Text? <==> o.Text?
    ensures o.Text? ==> Delivered(o, retries) == o && EndingOf(o, retries).value.raw == Some(o.text)
    ensures EndingOf(o, retries).value.status == RETRY_EXHAUSTED && !(o.Raised? && o.e.Is(RetryExhaustedError)) ==>
              retries > 0 && Delivered(o, retries).e.Is(RetryExhaustedError)
  {
  }

  /** `call_with_recording`, the thunk being the backend seen through `wrap`. */
  method CallWithRecording(builder: RunManifestBuilder, backend: Backend, wrap: Outcome -> Outcome, site: CallSite,
                           retries: int)
      returns (r: Outcome)
    modifies builder`calls, backend`made
    ensures CallDone(backend.replies, wrap, old(backend.made), backend.made, retries, site,
                     builder.finalized, old(builder.calls), builder.calls, r)
  {
    var allowed := retries + 1;
    var attempts: nat := 0;
    while true
      invariant backend.made == old(backend.made) + attempts && builder.calls == old(builder.calls)
      invariant attempts == 0 || attempts < allowed
      invariant forall k: nat :: old(backend.made) <= k < backend.made ==> Retryable(Seen(backend.replies, wrap, k))
      decreases allowed - attempts
    {
      attempts := attempts + 1;
      var reply := backend.Generate();
      var o := wrap(reply);
      assert o == Seen(backend.replies, wrap, backend.made - 1);
      if o.Text? {
        var ok := builder.RecordCall(RecordOf(site, attempts, Ending(SUCCESS, Some(o.text), "")));
        return if ok then o else Raised(SEALED);
      } else if o.e.Is(MalformedOutputError) {
        var ok := builder.RecordCall(RecordOf(site, attempts, Ending(MALFORMED_OUTPUT, o.e.raw, o.e.detail)));
        return if ok then o else Raised(SEALED);
      } else if o.e.Is(ModelError) {
        if attempts < allowed {
          continue;
        }
        var terminal := if retries > 0 then RETRY_EXHAUSTED else Classify(o.e);
        var ok := builder.RecordCall(RecordOf(site, attempts, Ending(terminal, None, o.e.detail)));
        if !ok {
          return Raised(SEALED);
        }
        return if retries > 0 then Raised(MakeRetryExhausted(o.e.detail)) else o;
      } else {
        return o;
      }
    }
  }
}
