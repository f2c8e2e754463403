/** What a call leaves on the record, read off the exception the backend raised and its classes. */
module Records {
  import opened Domain
  import opened Failures
  import opened Manifest
  import opened Qwen
  import opened Texts

  /** Malformed, and typed so that it passes the client unchanged. */
  predicate IsMalformed(e: Exc) { MalformedOutputError in e.classes && ModelError in e.classes }

  /** When a status is recorded for an exception a request ended in. */
  predicate Fits(e: Exc, retries: int, status: CallStatus) {
    var typed := ModelError in e.classes && MalformedOutputError !in e.classes;
    match status
    case SUCCESS => false
    case MALFORMED_OUTPUT => IsMalformed(e)
    case RETRY_EXHAUSTED => !IsMalformed(e) && (retries > 0 || (typed && RetryExhaustedError in e.classes))
    case TIMEOUT => retries <= 0 && typed && ModelTimeout in e.classes && RetryExhaustedError !in e.classes
    case CONFIGURATION_ERROR =>
      && retries <= 0 && typed && ConfigurationError in e.classes
      && ModelTimeout !in e.classes && RetryExhaustedError !in e.classes
    case MODEL_ERROR =>
      && retries <= 0 && !IsMalformed(e)
      && (typed ==> e.classes !! {ModelTimeout, RetryExhaustedError, ConfigurationError})
  }

  /** Each status is recorded exactly when it fits, so exactly one fits. */
  lemma StatusFits(e: Exc, retries: int)
    requires e.WellTyped() && e.Is(Exception)
    ensures EndingOf(Wrap(Raised(e)), retries).Some?
    ensures forall s :: EndingOf(Wrap(Raised(e)), retries).value.status == s <==> Fits(e, retries, s)
  {
    var s := EndingOf(Wrap(Raised(e)), retries).value.status;
    assert Fits(e, retries, s);
  }

  /** A further request is made after an exception, unless it is the malformed one. */
  predicate AskedAgain(o: Outcome) { o.Raised? && Exception in o.e.classes && !IsMalformed(o.e) }

  lemma RetryableIs(o: Outcome)
    requires o.Raised? ==> o.e.WellTyped()
    ensures Retryable(Wrap(o)) <==> AskedAgain(o)
  {
  }

  /** The text recorded for an exception: its own when it is a model error, its name before it otherwise. */
  function DetailOf(e: Exc): string { if ModelError in e.classes then e.detail else e.name + ": " + e.detail }

  /** The record of a call that ended in this outcome, field by field. */
  ghost predicate Describes(record: CallRecord, site: CallSite, attempts: nat, retries: int, o: Outcome) {
    && record.boundary == site.boundary && record.interactionIndex == site.interactionIndex
    && record.seqLabel == site.seqLabel && record.modelRole == site.modelRole
    && record.sessionId == site.sessionId && record.cacheId == site.cacheId
    && record.attempts == attempts
    && match o
       case Text(text) => record.status == SUCCESS && record.raw == Some(text) && record.detail == ""
       case Raised(e) =>
         && Fits(e, retries, record.status)
         && record.raw == (if IsMalformed(e) then e.raw else None) && record.detail == DetailOf(e)
  }

  /** What the caller of a recorded call gets. */
  ghost predicate Returns(r: Outcome, retries: int, o: Outcome) {
    if o.Text? || IsMalformed(o.e) then r == o
    else r.Raised? && r.e.detail == DetailOf(o.e)
         && (retries > 0 ==> r.e.name == "RetryExhaustedError" && RetryExhaustedError in r.e.classes
                             && ModelError !in r.e.classes)
         && (retries <= 0 ==> ModelError in r.e.classes && (ModelError in o.e.classes ==> r == o))
  }

  lemma SettledSays(o: Outcome, attempts: nat, retries: int, site: CallSite, before: seq<CallRecord>,
                    after: seq<CallRecord>, r: Outcome)
    requires (o.Raised? ==> o.e.WellTyped() && o.e.Is(Exception))
    requires Settles(Wrap(o), attempts, retries, site, false, before, after, r)
    ensures |after| == |before| + 1 && after[..|before|] == before
    ensures Describes(after[|before|], site, attempts, retries, o) && Returns(r, retries, o)
  {
    if o.Raised? {
      StatusFits(o.e, retries);
    }
  }

  /** How often the backend is asked: again after every exception but a malformed one, up to `retries` times. */
  ghost predicate Asks(replies: nat -> Outcome, start: nat, made: nat, retries: int) {
    && start < made && (made == start + 1 || made - start <= retries + 1)
    && (forall k: nat :: start <= k < made - 1 ==> AskedAgain(replies(k)))
    && (made - start < retries + 1 ==> !AskedAgain(replies(made - 1)))
  }

  lemma AsksIs(replies: nat -> Outcome, start: nat, made: nat, retries: int)
    requires forall n: nat :: replies(n).Raised? ==> replies(n).e.WellTyped()
    requires StopsAt(replies, Wrap, start, made, retries)
    ensures Asks(replies, start, made, retries)
  {
    forall k: nat | start <= k < made ensures Retryable(Seen(replies, Wrap, k)) <==> AskedAgain(replies(k)) {
      RetryableIs(replies(k));
    }
  }

  /** A whole call on an open manifest: how often it asks, the one record it writes, and what it returns, all by
      the last reply; only what is no `Exception` passes unrecorded. */
  lemma CallSays(replies: nat -> Outcome, start: nat, made: nat, retries: int, site: CallSite,
                 before: seq<CallRecord>, after: seq<CallRecord>, r: Outcome)
    requires forall n: nat :: replies(n).Raised? ==> replies(n).e.WellTyped()
    requires CallDone(replies, Wrap, start, made, retries, site, false, before, after, r)
    ensures Asks(replies, start, made, retries)
    ensures var o := replies(made - 1);
            if o.Raised? && Exception !in o.e.classes then after == before && r == o
            else |after| == |before| + 1 && after[..|before|] == before
                 && Describes(after[|before|], site, made - start, retries, o) && Returns(r, retries, o)
  {
    AsksIs(replies, start, made, retries);
    var o := replies(made - 1);
    if !(o.Raised? && Exception !in o.e.classes) {
      SettledSays(o, made - start, retries, site, before, after, r);
    }
  }

  // ----- the local server -----

  /** What a reply of the server is recorded as when there are no retries. */
  predicate ServerStatus(reply: ServerReply, status: CallStatus) {
    match reply
    case Unreachable(timedOut, _) => status == if timedOut then TIMEOUT else MODEL_ERROR
    case Broken(_) => false
    case NotJson(_) => status == MODEL_ERROR
    case NoChoices => status == MODEL_ERROR
    case NoContent => status == MODEL_ERROR
    case Reply(_, reasoning) =>
      if exists c :: reasoning.Some? && c in reasoning.value && !IsSpace(c) then status == MALFORMED_OUTPUT
      else status == SUCCESS
  }

  lemma BlankIs(s: string)
    ensures Blank(s) <==> forall c :: c in s ==> IsSpace(c)
  {
  }

  lemma ServerFits(reply: ServerReply, retries: int, site: CallSite, attempts: nat, record: CallRecord)
    requires !reply.Broken? && retries <= 0 && Describes(record, site, attempts, retries, LlamaOutcome(reply))
    ensures ServerStatus(reply, record.status)
    ensures record.raw == if reply.Reply? then Some(reply.content) else None
    ensures reply.Unreachable? ==> EndsWith(record.detail, reply.reason)
    ensures reply.NotJson? ==> EndsWith(record.detail, reply.reason)
  {
    if reply.Reply? && reply.reasoning.Some? {
      BlankIs(reply.reasoning.value);
    }
  }

  predicate EndsWith(s: string, t: string) { |t| <= |s| && s[|s| - |t|..] == t }

  /** From the server to the record: without retries, a request that timed out is recorded as a timeout and every
      other transport failure as a model error, each after one request and with its reason; the content of a
      reply is kept whether or not its reasoning is visible. */
  lemma ServerIsRecorded(reply: ServerReply, site: CallSite, before: seq<CallRecord>, after: seq<CallRecord>,
                         retries: int, replies: nat -> Outcome, start: nat, made: nat, r: Outcome)
    requires !reply.Broken? && retries <= 0
    requires forall n: nat :: replies(n) == LlamaOutcome(reply)
    requires CallDone(replies, Wrap, start, made, retries, site, false, before, after, r)
    ensures made == start + 1 && |after| == |before| + 1 && after[..|before|] == before
    ensures ServerStatus(reply, after[|before|].status)
    ensures after[|before|].raw == if reply.Reply? then Some(reply.content) else None
    ensures reply.Unreachable? ==> EndsWith(after[|before|].detail, reply.reason)
    ensures reply.NotJson? ==> EndsWith(after[|before|].detail, reply.reason)
  {
    ServerTyped(reply);
    CallSays(replies, start, made, retries, site, before, after, r);
    ServerFits(reply, retries, site, made - start, after[|before|]);
  }

  lemma ServerTyped(reply: ServerReply)
    requires !reply.Broken?
    ensures LlamaOutcome(reply).Raised? ==> LlamaOutcome(reply).e.WellTyped() && LlamaOutcome(reply).e.Is(Exception)
  {
  }
}
