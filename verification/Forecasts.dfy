/** What the lifecycle log says, in terms of the predictions the committed steps made. */
module Forecasts {
  import opened Domain
  import opened Texts
  import opened Lifecycle

  /** The prediction is filed under the first hypothesis it derives from. */
  predicate Predicts(p: Prediction, hid: string) { p.derivedFrom != [] && p.derivedFrom[0] == hid }

  /** The step's last prediction from the hypothesis has this likelihood, or it makes none. */
  ghost predicate Shows(ps: seq<Prediction>, round: real -> real, hid: string, r: Option<real>) {
    if r.None? then forall i :: 0 <= i < |ps| ==> !Predicts(ps[i], hid)
    else exists i :: 0 <= i < |ps| && Predicts(ps[i], hid) && r.value == round(ps[i].likelihood)
                     && forall j :: i < j < |ps| ==> !Predicts(ps[j], hid)
  }

  predicate IsCommitted(r: InteractionResult) { r.committed && r.version.Some? }

  /** What the last committed step of a history shows; nothing before the first one. */
  ghost predicate Stands(h: History, round: real -> real, hid: string, r: Option<real>) {
    if forall i :: 0 <= i < |h| ==> !IsCommitted(h[i]) then r == None
    else exists c :: 0 <= c < |h| && IsCommitted(h[c]) && Shows(h[c].predictions, round, hid, r)
                     && forall j :: c < j < |h| ==> !IsCommitted(h[j])
  }

  lemma ShowsAppend(ps: seq<Prediction>, p: Prediction, round: real -> real, hid: string, r: Option<real>)
    requires Shows(ps, round, hid, r)
    ensures Shows(ps + [p], round, hid, if Predicts(p, hid) then Some(round(p.likelihood)) else r)
  {
    var all := ps + [p];
    if Predicts(p, hid) {
      assert all[|ps|] == p;
    } else if r.Some? {
      var i :| 0 <= i < |ps| && Predicts(ps[i], hid) && r.value == round(ps[i].likelihood)
               && forall j :: i < j < |ps| ==> !Predicts(ps[j], hid);
      assert all[i] == ps[i];
    }
  }

  lemma ShowsUnique(ps: seq<Prediction>, round: real -> real, hid: string, r: Option<real>, q: Option<real>)
    requires Shows(ps, round, hid, r) && Shows(ps, round, hid, q)
    ensures r == q
  {
  }

  /** Each hypothesis is given the rounded likelihood of the last prediction filed under it, and the others none. */
  lemma {:induction false} LikelihoodsAre(ps: seq<Prediction>, round: real -> real, hid: string)
    ensures Shows(ps, round, hid, At(LikelihoodsOf(ps, round), hid))
  {
    if ps != [] {
      var init, last := ps[..|ps| - 1], ps[|ps| - 1];
      LikelihoodsAre(init, round, hid);
      assert ps == init + [last];
      ShowsAppend(init, last, round, hid, At(LikelihoodsOf(init, round), hid));
    }
  }

  lemma StandsAppend(h: History, r: InteractionResult, round: real -> real, hid: string, before: Option<real>)
    requires Stands(h, round, hid, before) && !IsCommitted(r)
    ensures Stands(h + [r], round, hid, before)
  {
    var all := h + [r];
    if c :| 0 <= c < |h| && IsCommitted(h[c]) {
      var d :| 0 <= d < |h| && IsCommitted(h[d]) && Shows(h[d].predictions, round, hid, before)
               && forall j :: d < j < |h| ==> !IsCommitted(h[j]);
      assert all[d] == h[d];
    }
  }

  lemma StandsLast(h: History, r: InteractionResult, round: real -> real, hid: string, now: Option<real>)
    requires IsCommitted(r) && Shows(r.predictions, round, hid, now)
    ensures Stands(h + [r], round, hid, now)
  {
    assert (h + [r])[|h|] == r;
  }

  /** The current predictions are what the last committed step shows. */
  lemma {:induction false} CurrentStands(h: History, round: real -> real, hid: string)
    ensures Stands(h, round, hid, At(Current(h, round), hid))
  {
    if h != [] {
      var init, last := h[..|h| - 1], h[|h| - 1];
      assert h == init + [last];
      if IsCommitted(last) {
        LikelihoodsAre(last.predictions, round, hid);
        StandsLast(init, last, round, hid, At(LikelihoodsOf(last.predictions, round), hid));
      } else {
        CurrentStands(init, round, hid);
        StandsAppend(init, last, round, hid, At(Current(init, round), hid));
      }
    }
  }

  lemma StandsUnique(h: History, round: real -> real, hid: string, r: Option<real>, q: Option<real>)
    requires Stands(h, round, hid, r) && Stands(h, round, hid, q)
    ensures r == q
  {
    if c :| 0 <= c < |h| && IsCommitted(h[c]) {
      var d :| 0 <= d < |h| && IsCommitted(h[d]) && Shows(h[d].predictions, round, hid, r)
               && forall j :: d < j < |h| ==> !IsCommitted(h[j]);
      var e :| 0 <= e < |h| && IsCommitted(h[e]) && Shows(h[e].predictions, round, hid, q)
               && forall j :: e < j < |h| ==> !IsCommitted(h[j]);
      assert d == e;
      ShowsUnique(h[d].predictions, round, hid, r, q);
    }
  }

  /** The event is what happened between two states, with the likelihood of the second. */
  predicate Describes(e: Event, before: Option<real>, now: Option<real>) {
    match e
    case Created(_, lk, _) => before.None? && now == Some(lk)
    case Strengthened(_, lk, _) => before.Some? && now == Some(lk) && lk > before.value
    case Weakened(_, lk, _) => before.Some? && now == Some(lk) && lk < before.value
    case Invalidated(_, _) => before.Some? && now.None?
  }

  /** The event of a committed step says how what that step shows differs from what stood before it. */
  ghost predicate Tells(h: History, round: real -> real, hid: string, e: Event) {
    && 1 <= e.step <= |h|
    && var r := h[e.step - 1];
       && IsCommitted(r) && r.version == Some(e.version)
       && exists before, now :: Stands(h[..e.step - 1], round, hid, before) && Shows(r.predictions, round, hid, now)
                                && Describes(e, before, now)
  }

  lemma ChangeDescribes(prev: map<string, real>, cur: map<string, real>, hid: string, version: string, step: nat)
    ensures var before := if hid in prev then Some(prev[hid]) else None;
            var now := if hid in cur then Some(cur[hid]) else None;
            var c := Change(prev, cur, hid, version, step);
            && (c == [] <==> before == now)
            && forall e :: e in c ==> Describes(e, before, now) && e.version == version && e.step == step
  {
  }

  lemma LastTells(h: History, round: real -> real, hid: string, e: Event)
    requires h != [] && e in LastChange(h, round, hid)
    ensures Tells(h, round, hid, e)
  {
    var init, last := h[..|h| - 1], h[|h| - 1];
    CurrentStands(init, round, hid);
    LikelihoodsAre(last.predictions, round, hid);
    ChangeDescribes(Current(init, round).at, LikelihoodsOf(last.predictions, round).at, hid, last.version.value, |h|);
    assert Describes(e, At(Current(init, round), hid), At(LikelihoodsOf(last.predictions, round), hid));
  }

  lemma TellsNext(h: History, round: real -> real, hid: string, e: Event)
    requires h != [] && Tells(h[..|h| - 1], round, hid, e)
    ensures Tells(h, round, hid, e)
  {
    var init := h[..|h| - 1];
    assert init[..e.step - 1] == h[..e.step - 1] && init[e.step - 1] == h[e.step - 1];
  }

  lemma LogSplits(h: History, round: real -> real, hid: string, e: Event)
    requires e in Log(h, round, hid)
    ensures h != [] && (e in LastChange(h, round, hid) || e in Log(h[..|h| - 1], round, hid))
  {
  }

  /** Every event in the log tells the truth about its step. */
  lemma {:induction false} LogTells(h: History, round: real -> real, hid: string, e: Event)
    requires e in Log(h, round, hid)
    ensures Tells(h, round, hid, e)
  {
    LogSplits(h, round, hid, e);
    if e in LastChange(h, round, hid) {
      LastTells(h, round, hid, e);
    } else {
      LogTells(h[..|h| - 1], round, hid, e);
      TellsNext(h, round, hid, e);
    }
  }

  lemma LastIsLogged(h: History, round: real -> real, hid: string, before: Option<real>, now: Option<real>)
    requires h != [] && IsCommitted(h[|h| - 1])
    requires Stands(h[..|h| - 1], round, hid, before) && Shows(h[|h| - 1].predictions, round, hid, now)
    ensures before != now <==> LastChange(h, round, hid) != []
  {
    var init, last := h[..|h| - 1], h[|h| - 1];
    CurrentStands(init, round, hid);
    StandsUnique(init, round, hid, before, At(Current(init, round), hid));
    LikelihoodsAre(last.predictions, round, hid);
    ShowsUnique(last.predictions, round, hid, now, At(LikelihoodsOf(last.predictions, round), hid));
    ChangeDescribes(Current(init, round).at, LikelihoodsOf(last.predictions, round).at, hid, last.version.value, |h|);
  }

  /** And nothing is left out: a committed step has an event exactly when it changes what stood. */
  lemma {:induction false} ChangesAreLogged(h: History, round: real -> real, hid: string, n: nat, before: Option<real>,
                                            now: Option<real>)
    requires 1 <= n <= |h| && IsCommitted(h[n - 1])
    requires Stands(h[..n - 1], round, hid, before) && Shows(h[n - 1].predictions, round, hid, now)
    ensures before != now <==> exists e :: e in Log(h, round, hid) && e.step == n
    decreases |h|
  {
    var init := h[..|h| - 1];
    LastChangeIsLast(h, round, hid);
    if n == |h| {
      LastIsLogged(h, round, hid, before, now);
      OldEvents(h, round, hid);
      if before != now {
        assert LastChange(h, round, hid)[0] in Log(h, round, hid);
      }
    } else {
      assert init[..n - 1] == h[..n - 1];
      ChangesAreLogged(init, round, hid, n, before, now);
    }
  }

  lemma OldEvents(h: History, round: real -> real, hid: string)
    requires h != []
    ensures forall e :: e in Log(h[..|h| - 1], round, hid) ==> e.step < |h|
  {
    LogRises(h[..|h| - 1], round, hid);
  }

  // ----- the order of the listing -----

  /** The predictions of the committed steps, in the order they were made. */
  function Made(h: History): seq<Prediction> {
    if h == [] then [] else Made(h[..|h| - 1]) + if IsCommitted(h[|h| - 1]) then h[|h| - 1].predictions else []
  }

  lemma {:induction false} NamedConcat(a: seq<Prediction>, b: seq<Prediction>)
    ensures Named(a + b) == Named(a) + Named(b)
  {
    if b == [] {
      assert a + b == a;
    } else {
      NamedConcat(a, b[..|b| - 1]);
      assert (a + b)[..|a + b| - 1] == a + b[..|b| - 1];
    }
  }

  lemma {:induction false} MentionsAre(h: History)
    ensures Mentions(h) == Named(Made(h))
  {
    if h != [] {
      var init, last := h[..|h| - 1], h[|h| - 1];
      MentionsAre(init);
      NamedConcat(Made(init), if IsCommitted(last) then last.predictions else []);
    }
  }

  /** One hypothesis was predicted from before the other was for the first time. */
  ghost predicate PredictedBefore(ps: seq<Prediction>, a: string, b: string) {
    exists i :: 0 <= i < |ps| && Predicts(ps[i], a) && forall j :: 0 <= j <= i ==> !Predicts(ps[j], b)
  }

  lemma BeforeStill(ps: seq<Prediction>, p: Prediction, a: string, b: string)
    requires PredictedBefore(ps, a, b)
    ensures PredictedBefore(ps + [p], a, b)
  {
    var i :| 0 <= i < |ps| && Predicts(ps[i], a) && forall j :: 0 <= j <= i ==> !Predicts(ps[j], b);
    assert (ps + [p])[i] == ps[i];
  }

  lemma {:induction false} NamedHas(ps: seq<Prediction>, hid: string)
    ensures hid in Named(ps) <==> exists i :: 0 <= i < |ps| && Predicts(ps[i], hid)
  {
    if ps != [] {
      var init, last := ps[..|ps| - 1], ps[|ps| - 1];
      NamedHas(init, hid);
      if i :| 0 <= i < |init| && Predicts(init[i], hid) {
        assert Predicts(ps[i], hid);
      }
      if i :| 0 <= i < |ps| && Predicts(ps[i], hid) {
        assert i < |init| ==> Predicts(init[i], hid);
      }
    }
  }

  lemma NewComesLast(ps: seq<Prediction>, p: Prediction, a: string, b: string)
    requires a in Named(ps) && b !in Named(ps)
    ensures PredictedBefore(ps + [p], a, b)
  {
    NamedHas(ps, a);
    NamedHas(ps, b);
    var i :| 0 <= i < |ps| && Predicts(ps[i], a);
    assert Predicts((ps + [p])[i], a);
  }

  lemma {:induction false} MergedInOrder(ps: seq<Prediction>, j: nat, k: nat)
    requires j < k < |Merge([], Named(ps))|
    ensures PredictedBefore(ps, Merge([], Named(ps))[j], Merge([], Named(ps))[k])
  {
    var init, last := ps[..|ps| - 1], ps[|ps| - 1];
    assert ps == init + [last];
    var before := Merge([], Named(init));
    if last.derivedFrom != [] {
      MergeStep([], Named(init), last.derivedFrom[0]);
    }
    if k < |before| {
      MergedInOrder(init, j, k);
      BeforeStill(init, last, before[j], before[k]);
    } else {
      MergeIs([], Named(init));
      NewComesLast(init, last, before[j], last.derivedFrom[0]);
    }
  }

  /** The hypotheses that are listed are those any committed step predicted from, once each, in the order in
      which they were first predicted from. */
  lemma ListedInOrder(h: History)
    ensures Distinct(Listed(h))
    ensures forall hid :: hid in Listed(h) <==> exists i :: 0 <= i < |Made(h)| && Predicts(Made(h)[i], hid)
    ensures forall j, k :: 0 <= j < k < |Listed(h)| ==> PredictedBefore(Made(h), Listed(h)[j], Listed(h)[k])
  {
    MentionsAre(h);
    MergeIs([], Named(Made(h)));
    forall hid ensures hid in Listed(h) <==> exists i :: 0 <= i < |Made(h)| && Predicts(Made(h)[i], hid) {
      NamedHas(Made(h), hid);
    }
    forall j, k | 0 <= j < k < |Listed(h)| ensures PredictedBefore(Made(h), Listed(h)[j], Listed(h)[k]) {
      MergedInOrder(Made(h), j, k);
    }
  }
}
