/** The prediction lifecycle: a log of differences between committed steps that has to replay to the
    current predictions. */
module Lifecycle {
  import opened Domain
  import opened Containers
  import opened Texts

  datatype Prediction = Prediction(derivedFrom: seq<string>, likelihood: real)

  datatype InteractionResult = InteractionResult(committed: bool, version: Option<string>, predictions: seq<Prediction>)

  datatype Event =
    | Created(version: string, likelihood: real, step: nat)
    | Strengthened(version: string, likelihood: real, step: nat)
    | Weakened(version: string, likelihood: real, step: nat)
    | Invalidated(version: string, step: nat)

  type Likelihoods = Dict<string, real>
  type History = seq<InteractionResult>

  predicate Counts(r: InteractionResult) { r.committed && r.version.Some? }

  /** `{hypothesis: round(likelihood, 3) for ...}`: predictions without a hypothesis are skipped, a later one
      for the same hypothesis wins.  Rounding can be any function. */
  function LikelihoodsOf(ps: seq<Prediction>, round: real -> real): (d: Likelihoods)
    ensures d.Valid()
  {
    if ps == [] then EmptyDict() else
    var init, last := LikelihoodsOf(ps[..|ps| - 1], round), ps[|ps| - 1];
    if last.derivedFrom == [] then init else init.Set(last.derivedFrom[0], round(last.likelihood))
  }

  /** The predictions of the last committed step. */
  function Current(h: History, round: real -> real): (d: Likelihoods)
    ensures d.Valid()
  {
    if h == [] then EmptyDict()
    else if Counts(h[|h| - 1]) then LikelihoodsOf(h[|h| - 1].predictions, round)
    else Current(h[..|h| - 1], round)
  }

  /** How one hypothesis changed between two committed steps; nothing when it did not. */
  function Change(prev: map<string, real>, cur: map<string, real>, hid: string, version: string,
                  step: nat): seq<Event> {
    if hid in cur then
      if hid !in prev then [Created(version, cur[hid], step)]
      else if cur[hid] > prev[hid] then [Strengthened(version, cur[hid], step)]
      else if cur[hid] < prev[hid] then [Weakened(version, cur[hid], step)]
      else []
    else if hid in prev then [Invalidated(version, step)]
    else []
  }

  /** What the last step of a history adds to a hypothesis's log. */
  function LastChange(h: History, round: real -> real, hid: string): seq<Event>
    requires h != []
  {
    var r := h[|h| - 1];
    if Counts(r)
    then Change(Current(h[..|h| - 1], round).at, LikelihoodsOf(r.predictions, round).at, hid, r.version.value, |h|)
    else []
  }

  function Log(h: History, round: real -> real, hid: string): seq<Event> {
    if h == [] then [] else Log(h[..|h| - 1], round, hid) + LastChange(h, round, hid)
  }

  // ----- reading a log on its own -----

  /** The likelihood a log ends on, if the prediction is alive. */
  function Replay(log: seq<Event>): Option<real> {
    if log == [] then None else
    match log[|log| - 1]
    case Invalidated(_, _) => None
    case Created(_, lk, _) => Some(lk)
    case Strengthened(_, lk, _) => Some(lk)
    case Weakened(_, lk, _) => Some(lk)
  }

  /** The event is possible after a prediction was left in this state, and in its stated direction. */
  predicate Follows(state: Option<real>, e: Event) {
    match e
    case Created(_, _, _) => state.None?
    case Strengthened(_, lk, _) => state.Some? && lk > state.value
    case Weakened(_, lk, _) => state.Some? && lk < state.value
    case Invalidated(_, _) => state.Some?
  }

  predicate Legal(log: seq<Event>) {
    log == [] || (Legal(log[..|log| - 1]) && Follows(Replay(log[..|log| - 1]), log[|log| - 1]))
  }

  /** The shape of a legal log: it starts with a creation, and creations follow exactly invalidations. */
  lemma {:induction false} LegalShape(log: seq<Event>, i: nat)
    requires Legal(log) && i < |log|
    ensures i == 0 ==> log[0].Created?
    ensures i > 0 ==> (log[i].Created? <==> log[i - 1].Invalidated?)
    decreases |log|
  {
    var n := |log| - 1;
    if i < n {
      LegalShape(log[..n], i);
    }
  }

  function At(d: Likelihoods, hid: string): Option<real> { if hid in d.at then Some(d.at[hid]) else None }

  lemma ChangeReplays(log: seq<Event>, prev: map<string, real>, cur: map<string, real>, hid: string, version: string,
                      step: nat)
    requires Legal(log) && Replay(log) == if hid in prev then Some(prev[hid]) else None
    ensures Legal(log + Change(prev, cur, hid, version, step))
    ensures Replay(log + Change(prev, cur, hid, version, step)) == if hid in cur then Some(cur[hid]) else None
  {
    var c := Change(prev, cur, hid, version, step);
    if c == [] {
      assert log + c == log;
    } else {
      assert (log + c)[..|log|] == log;
    }
  }

  /** For every history: each log is legal, and replaying it gives exactly the predictions of the last
      committed step. */
  lemma {:induction false} LogReplays(h: History, round: real -> real, hid: string)
    ensures Legal(Log(h, round, hid)) && Replay(Log(h, round, hid)) == At(Current(h, round), hid)
  {
    if h != [] {
      var init, r := h[..|h| - 1], h[|h| - 1];
      LogReplays(init, round, hid);
      if Counts(r) {
        ChangeReplays(Log(init, round, hid), Current(init, round).at, LikelihoodsOf(r.predictions, round).at,
                      hid, r.version.value, |h|);
      } else {
        assert Log(h, round, hid) == Log(init, round, hid);
      }
    }
  }

  /** The step of an event is a committed step of the history, and the version is that step's. */
  predicate Dated(h: History, e: Event) {
    1 <= e.step <= |h| && Counts(h[e.step - 1]) && h[e.step - 1].version.value == e.version
  }

  predicate Rising(log: seq<Event>) { forall i, j :: 0 <= i < j < |log| ==> log[i].step < log[j].step }

  /** Steps are strictly increasing, and every event is dated by its own committed step. */
  lemma {:induction false} LogRises(h: History, round: real -> real, hid: string)
    ensures Rising(Log(h, round, hid))
    ensures forall e :: e in Log(h, round, hid) ==> Dated(h, e)
  {
    if h != [] {
      var init := h[..|h| - 1];
      LogRises(init, round, hid);
      LastChangeIsLast(h, round, hid);
      forall e | e in Log(init, round, hid) ensures Dated(h, e) && e.step < |h| {
        assert Dated(init, e);
      }
      RisingAppend(Log(init, round, hid), LastChange(h, round, hid), |h|);
    }
  }

  lemma LastChangeIsLast(h: History, round: real -> real, hid: string)
    requires h != []
    ensures |LastChange(h, round, hid)| <= 1
    ensures forall e :: e in LastChange(h, round, hid) ==> e.step == |h| && Dated(h, e)
  {
  }

  lemma RisingAppend(log: seq<Event>, more: seq<Event>, n: nat)
    requires Rising(log) && |more| <= 1
    requires (forall e :: e in log ==> e.step < n) && (forall e :: e in more ==> e.step == n)
    ensures Rising(log + more)
  {
  }

  /** The events dated up to a step. */
  function UpTo(log: seq<Event>, n: nat): seq<Event> {
    if log == [] then []
    else UpTo(log[..|log| - 1], n) + if log[|log| - 1].step <= n then [log[|log| - 1]] else []
  }

  lemma {:induction false} UpToAppend(log: seq<Event>, more: seq<Event>, n: nat)
    requires |more| <= 1
    ensures UpTo(log + more, n) == UpTo(log, n) + if more != [] && more[0].step <= n then more else []
  {
    if more == [] {
      assert log + more == log;
    } else {
      assert (log + more)[..|log|] == log;
    }
  }

  lemma {:induction false} UpToAll(log: seq<Event>, n: nat)
    requires forall e :: e in log ==> e.step <= n
    ensures UpTo(log, n) == log
  {
    if log != [] {
      UpToAll(log[..|log| - 1], n);
      assert log == log[..|log| - 1] + [log[|log| - 1]];
    }
  }

  /** A log cut at a step is the log of the history up to that step. */
  lemma {:induction false} LogCut(h: History, round: real -> real, hid: string, n: nat)
    requires n <= |h|
    ensures UpTo(Log(h, round, hid), n) == Log(h[..n], round, hid)
    decreases |h|
  {
    if n == |h| {
      assert h[..n] == h;
      LogRises(h, round, hid);
      UpToAll(Log(h, round, hid), n);
    } else {
      var init := h[..|h| - 1];
      LogCut(init, round, hid, n);
      assert init[..n] == h[..n];
      LastChangeIsLast(h, round, hid);
      UpToAppend(Log(init, round, hid), LastChange(h, round, hid), n);
    }
  }

  /** The log remembers every committed state: replayed up to any step it gives the predictions as the last
      committed step by then had them. */
  lemma LogRemembers(h: History, round: real -> real, hid: string, n: nat)
    requires n <= |h|
    ensures Replay(UpTo(Log(h, round, hid), n)) == At(Current(h[..n], round), hid)
  {
    LogCut(h, round, hid, n);
    LogReplays(h[..n], round, hid);
  }

  // ----- the order of the listing -----

  /** The names of `b` that are new are added to `a`, in the order they first occur. */
  function Merge(a: seq<string>, b: seq<string>): seq<string> {
    if b == [] then a else
    var m, last := Merge(a, b[..|b| - 1]), b[|b| - 1];
    if last in m then m else m + [last]
  }

  /** The hypotheses a step's predictions name, as they are read. */
  function Named(ps: seq<Prediction>): seq<string> {
    if ps == [] then [] else
    var init, last := Named(ps[..|ps| - 1]), ps[|ps| - 1];
    if last.derivedFrom == [] then init else init + [last.derivedFrom[0]]
  }

  /** The same for the committed steps of a history. */
  function Mentions(h: History): seq<string> {
    if h == [] then [] else Mentions(h[..|h| - 1]) + if Counts(h[|h| - 1]) then Named(h[|h| - 1].predictions) else []
  }

  /** Every hypothesis that was ever predicted from, where it first occurs. */
  function Listed(h: History): seq<string> { Merge([], Mentions(h)) }

  lemma {:induction false} MergeIs(a: seq<string>, b: seq<string>)
    ensures forall x :: x in Merge(a, b) <==> x in a || x in b
    ensures Distinct(a) ==> Distinct(Merge(a, b))
  {
    if b != [] {
      var init, last := b[..|b| - 1], b[|b| - 1];
      MergeIs(a, init);
      assert forall x :: x in b <==> x in init || x == last;
      var m := Merge(a, init);
      assert Merge(a, b) == if last in m then m else m + [last];
      if Distinct(a) && last !in m {
        assert forall i :: 0 <= i < |m| ==> m[i] in m;
      }
    }
  }

  lemma {:induction false} MergeConcat(a: seq<string>, b: seq<string>, c: seq<string>)
    ensures Merge(a, b + c) == Merge(Merge(a, b), c)
  {
    if c == [] {
      assert b + c == b;
    } else {
      MergeConcat(a, b, c[..|c| - 1]);
      assert (b + c)[..|b + c| - 1] == b + c[..|c| - 1];
    }
  }

  lemma MergeStep(a: seq<string>, b: seq<string>, x: string)
    ensures Merge(a, b + [x]) == if x in Merge(a, b) then Merge(a, b) else Merge(a, b) + [x]
  {
    assert (b + [x])[..|b|] == b;
  }

  /** Merging a list without its repeats is merging the list. */
  lemma {:induction false} MergeDistinct(a: seq<string>, b: seq<string>)
    ensures Merge(a, Merge([], b)) == Merge(a, b)
  {
    if b != [] {
      var init, x := b[..|b| - 1], b[|b| - 1];
      MergeDistinct(a, init);
      MergeIs(a, init);
      MergeIs([], init);
      MergeStep(a, Merge([], init), x);
    }
  }

  lemma {:induction false} OrderIs(ps: seq<Prediction>, round: real -> real)
    ensures LikelihoodsOf(ps, round).order == Merge([], Named(ps))
  {
    if ps != [] {
      OrderIs(ps[..|ps| - 1], round);
      if ps[|ps| - 1].derivedFrom != [] {
        MergeStep([], Named(ps[..|ps| - 1]), ps[|ps| - 1].derivedFrom[0]);
      }
    }
  }

  lemma ListedStep(h: History, round: real -> real, i: nat)
    requires i < |h|
    ensures Listed(h[..i + 1]) ==
            if Counts(h[i]) then Merge(Listed(h[..i]), LikelihoodsOf(h[i].predictions, round).order) else Listed(h[..i])
  {
    assert h[..i + 1][..i] == h[..i];
    if Counts(h[i]) {
      MergeConcat([], Mentions(h[..i]), Named(h[i].predictions));
      OrderIs(h[i].predictions, round);
      MergeDistinct(Listed(h[..i]), Named(h[i].predictions));
    } else {
      assert Mentions(h[..i + 1]) == Mentions(h[..i]);
    }
  }

  /** Each hypothesis is listed once, and the others have nothing to tell. */
  lemma {:induction false} ListedIs(h: History, round: real -> real, hid: string)
    ensures Distinct(Listed(h))
    ensures hid in Listed(h) <==> Log(h, round, hid) != []
    ensures hid in Current(h, round).at ==> hid in Listed(h)
  {
    MergeIs([], Mentions(h));
    if h != [] {
      var init, r := h[..|h| - 1], h[|h| - 1];
      ListedIs(init, round, hid);
      MergeIs([], Mentions(init));
      if Counts(r) {
        OrderIs(r.predictions, round);
        MergeIs([], Named(r.predictions));
        assert hid in Named(r.predictions) <==> hid in LikelihoodsOf(r.predictions, round).order;
        LogReplays(init, round, hid);
      }
    }
  }

  // ----- the loops -----

  type Buckets = Dict<string, seq<Event>>

  /** `events.setdefault(hid, []).extend(...)`. */
  function Extend(events: Buckets, hid: string, more: seq<Event>): (r: Buckets)
    requires events.Valid()
    ensures r.Valid() && r.at == events.at[hid := Lookup(events.at, hid) + more]
    ensures r.order == Merge(events.order, [hid])
  {
    assert [hid][..0] == [];
    events.Set(hid, Lookup(events.at, hid) + more)
  }

  /** Some hypotheses have their change of this step entered, the others are as before. */
  ghost predicate Entered(before: Buckets, events: Buckets, prev: map<string, real>, cur: map<string, real>,
                          done: set<string>, version: string, step: nat) {
    && events.Valid()
    && forall hid :: Lookup(events.at, hid) ==
         Lookup(before.at, hid) + if hid in done then Change(prev, cur, hid, version, step) else []
  }

  lemma EnterOne(before: Buckets, events: Buckets, prev: map<string, real>, cur: map<string, real>, done: set<string>,
                 version: string, step: nat, hid: string)
    requires Entered(before, events, prev, cur, done, version, step) && hid !in done
    ensures Entered(before, Extend(events, hid, Change(prev, cur, hid, version, step)), prev, cur, done + {hid},
                    version, step)
  {
  }

  lemma GoneOne(before: Buckets, events: Buckets, prev: map<string, real>, cur: map<string, real>, done: set<string>,
                version: string, step: nat, hid: string)
    requires Entered(before, events, prev, cur, done, version, step) && hid in prev && (hid in done <==> hid in cur)
    ensures Entered(before, if hid in cur then events else Extend(events, hid, [Invalidated(version, step)]),
                    prev, cur, done + {hid}, version, step)
  {
    if hid in cur {
      assert done + {hid} == done;
    } else {
      EnterOne(before, events, prev, cur, done, version, step, hid);
    }
  }

  /** The keys a loop over a dict has passed. */
  function Passed(d: Likelihoods, i: nat): set<string>
    requires i <= |d.order|
  {
    set hid | hid in d.order[..i]
  }

  lemma PassOne(d: Likelihoods, i: nat)
    requires d.Valid() && i < |d.order|
    ensures d.order[i] in d.at && d.order[i] !in Passed(d, i)
    ensures Passed(d, i + 1) == Passed(d, i) + {d.order[i]}
  {
    assert d.order[i] in d.order;
  }

  lemma PassAll(d: Likelihoods)
    requires d.Valid()
    ensures Passed(d, 0) == {} && Passed(d, |d.order|) == d.at.Keys
  {
    assert d.order[..|d.order|] == d.order;
  }

  lemma PresentStep(before: Buckets, events: Buckets, prev: Likelihoods, cur: Likelihoods, version: string, step: nat,
                    i: nat)
    requires cur.Valid() && i < |cur.order|
    requires Entered(before, events, prev.at, cur.at, Passed(cur, i), version, step)
    requires events.order == Merge(before.order, cur.order[..i])
    ensures cur.order[i] in cur.at
    ensures var hid := cur.order[i];
            var after := Extend(events, hid, Change(prev.at, cur.at, hid, version, step));
            && Entered(before, after, prev.at, cur.at, Passed(cur, i + 1), version, step)
            && after.order == Merge(before.order, cur.order[..i + 1])
  {
    var hid := cur.order[i];
    PassOne(cur, i);
    EnterOne(before, events, prev.at, cur.at, Passed(cur, i), version, step, hid);
    assert cur.order[..i + 1] == cur.order[..i] + [hid];
    MergeConcat(before.order, cur.order[..i], [hid]);
  }

  /** The branches of that loop. */
  method Noted(prev: Likelihoods, cur: Likelihoods, hid: string, version: string, step: nat) returns (r: seq<Event>)
    requires hid in cur.at
    ensures r == Change(prev.at, cur.at, hid, version, step)
  {
    var lk := cur.at[hid];
    if hid !in prev.at {
      r := [Created(version, lk, step)];
    } else if lk > prev.at[hid] {
      r := [Strengthened(version, lk, step)];
    } else if lk < prev.at[hid] {
      r := [Weakened(version, lk, step)];
    } else {
      r := [];
    }
  }

  /** The first inner loop: created, strengthened, weakened, or only a bucket. */
  method EnterPresent(before: Buckets, prev: Likelihoods, cur: Likelihoods, version: string, step: nat)
      returns (events: Buckets)
    requires before.Valid() && prev.Valid() && cur.Valid()
    ensures Entered(before, events, prev.at, cur.at, cur.at.Keys, version, step)
    ensures events.order == Merge(before.order, cur.order)
  {
    events := before;
    PassAll(cur);
    for i := 0 to |cur.order|
      invariant Entered(before, events, prev.at, cur.at, Passed(cur, i), version, step)
      invariant events.order == Merge(before.order, cur.order[..i])
    {
      PresentStep(before, events, prev, cur, version, step, i);
      var hid := cur.order[i];
      var change := Noted(prev, cur, hid, version, step);
      events := Extend(events, hid, change);
    }
    assert cur.order[..|cur.order|] == cur.order;
  }

  lemma GoneStep(before: Buckets, events: Buckets, prev: Likelihoods, cur: Likelihoods, version: string, step: nat,
                 i: nat)
    requires prev.Valid() && i < |prev.order|
    requires Entered(before, events, prev.at, cur.at, cur.at.Keys + Passed(prev, i), version, step)
    ensures Entered(before,
                    if prev.order[i] in cur.at then events
                    else Extend(events, prev.order[i], [Invalidated(version, step)]),
                    prev.at, cur.at, cur.at.Keys + Passed(prev, i + 1), version, step)
  {
    PassOne(prev, i);
    GoneOne(before, events, prev.at, cur.at, cur.at.Keys + Passed(prev, i), version, step, prev.order[i]);
    assert cur.at.Keys + Passed(prev, i + 1) == cur.at.Keys + Passed(prev, i) + {prev.order[i]};
  }

  lemma MergeOld(a: seq<string>, x: string)
    requires x in a
    ensures Merge(a, [x]) == a
  {
    assert [x][..0] == [];
  }

  /** The second: what was there and is gone. */
  method EnterGone(before: Buckets, present: Buckets, prev: Likelihoods, cur: Likelihoods, version: string, step: nat)
      returns (events: Buckets)
    requires prev.Valid() && Entered(before, present, prev.at, cur.at, cur.at.Keys + Passed(prev, 0), version, step)
    requires forall hid :: hid in prev.order ==> hid in present.order
    ensures Entered(before, events, prev.at, cur.at, cur.at.Keys + Passed(prev, |prev.order|), version, step)
    ensures events.order == present.order
  {
    events := present;
    for i := 0 to |prev.order|
      invariant Entered(before, events, prev.at, cur.at, cur.at.Keys + Passed(prev, i), version, step)
      invariant events.order == present.order
    {
      MergeOld(present.order, prev.order[i]);
      GoneStep(before, events, prev, cur, version, step, i);
      if prev.order[i] !in cur.at {
        events := Extend(events, prev.order[i], [Invalidated(version, step)]);
      }
    }
  }

  method EnterStep(before: Buckets, prev: Likelihoods, cur: Likelihoods, version: string, step: nat)
      returns (events: Buckets)
    requires before.Valid() && prev.Valid() && cur.Valid() && forall hid :: hid in prev.order ==> hid in before.order
    ensures events.Valid() && events.order == Merge(before.order, cur.order)
    ensures forall hid :: Lookup(events.at, hid) == Lookup(before.at, hid) + Change(prev.at, cur.at, hid, version, step)
  {
    var present := EnterPresent(before, prev, cur, version, step);
    PassAll(prev);
    assert cur.at.Keys + Passed(prev, 0) == cur.at.Keys;
    MergeIs(before.order, cur.order);
    events := EnterGone(before, present, prev, cur, version, step);
  }

  /** The buckets `prediction_lifecycle` fills: every hypothesis's is its log, and they stand in the order in
      which the hypotheses were first predicted from. */
  method FillBuckets(h: History, round: real -> real) returns (events: Buckets)
    ensures events.Valid() && events.order == Listed(h)
    ensures forall hid :: Lookup(events.at, hid) == Log(h, round, hid)
  {
    var prev: Likelihoods := EmptyDict();
    events := EmptyDict();
    for i := 0 to |h|
      invariant events.Valid() && prev == Current(h[..i], round) && events.order == Listed(h[..i])
      invariant forall hid :: hid in prev.order ==> hid in events.order
      invariant forall hid :: Lookup(events.at, hid) == Log(h[..i], round, hid)
    {
      assert h[..i + 1][..i] == h[..i];
      ListedStep(h, round, i);
      if Counts(h[i]) {
        var cur := LikelihoodsOf(h[i].predictions, round);
        MergeIs(events.order, cur.order);
        events := EnterStep(events, prev, cur, h[i].version.value, i + 1);
        prev := cur;
      }
    }
    assert h[..|h|] == h;
  }

  /** `prediction_lifecycle`: the hypotheses in the order they were first predicted from, each with its log. */
  method PredictionLifecycle(h: History, round: real -> real) returns (r: seq<(string, seq<Event>)>)
    ensures |r| == |Listed(h)| && forall i :: 0 <= i < |r| ==> r[i] == (Listed(h)[i], Log(h, round, Listed(h)[i]))
  {
    var events := FillBuckets(h, round);
    r := seq(|events.order|, i requires 0 <= i < |events.order| =>
        (events.order[i], Lookup(events.at, events.order[i])));
  }
}
