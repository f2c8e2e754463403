/** The single authorised execution: any number of attempts interleaving on one evidence directory.

    Each attempt is a process running `execute` one file-system operation at a time, and any of them
    may die between two operations. */
module Runner {
  import opened Domain

  type Pid = nat

  /** Where an attempt is.  `lines` is the number of backend calls its failure handler counted. */
  datatype Phase =
    | Start                        // nothing done yet
    | Absent                       // exists() said no
    | Refused                      // FileExistsError, from the check or from mkdir
    | Setup                        // mkdir succeeded
    | SetupFailed                  // the exception was caught
    | Counted(lines: nat)          // provenance read
    | Emptied(lines: nat)          // iterdir() found nothing
    | Reported(record: Report)     // setup failure recorded beside the directory
    | Running                      // in the pipeline
    | Finishing                    // completed or aborted; writing evidence
    | Finished
    | Dead                         // crashed, or an error escaped

  datatype Report = Report(backendCalls: nat, removed: bool)

  /** The directory: how many entries it has, and how many calls its provenance log holds. */
  datatype Directory = Directory(entries: nat, lines: nat)

  /** `creator` is the attempt whose mkdir made the directory that is there now; `entered` counts
      entries into the pipeline.  Neither is visible to the code. */
  datatype State = State(dir: Option<Directory>, phases: map<Pid, Phase>, creator: Option<Pid>, entered: nat)

  function PhaseOf(s: State, p: Pid): Phase { if p in s.phases then s.phases[p] else Start }

  function At(s: State, p: Pid, phase: Phase): State { s.(phases := s.phases[p := phase]) }

  datatype Action =
    | Check | Mkdir
    | SetupWrites(d: Directory) | SetupSucceeds | SetupRaises
    | CountCalls | LookInside | Rmdir | WriteReport
    | PipelineWrites(d: Directory) | PipelineEnds | WriteEvidence(d: Directory)
    | Crash

  /** Files are only ever added: by the attempt itself, or by anything else in between. */
  predicate Grows(d: Directory, e: Directory) {
    d.entries <= e.entries && d.lines <= e.lines && (e.lines > 0 ==> e.entries > 0)
  }

  /** One operation of one attempt. */
  ghost predicate Step(s: State, p: Pid, a: Action, t: State) {
    var phase := PhaseOf(s, p);
    match a
    case Check => phase.Start? && t == At(s, p, if s.dir.Some? then Refused else Absent)
    case Mkdir =>
      phase.Absent? &&
      t == (if s.dir.Some? then At(s, p, Refused)
            else At(s, p, Setup).(dir := Some(Directory(0, 0)), creator := Some(p)))
    case SetupWrites(d) => phase.Setup? && s.dir.Some? && Grows(s.dir.value, d) && t == s.(dir := Some(d))
    case SetupSucceeds => phase.Setup? && t == At(s, p, Running).(entered := s.entered + 1)
    case SetupRaises => phase.Setup? && t == At(s, p, SetupFailed)
    case CountCalls => phase.SetupFailed? && s.dir.Some? && t == At(s, p, Counted(s.dir.value.lines))
    case LookInside =>
      phase.Counted? && s.dir.Some? &&
      t == At(s, p, if s.dir.value.entries == 0 then Emptied(phase.lines) else Reported(Report(phase.lines, false)))
    case Rmdir =>
      phase.Emptied? && s.dir.Some? &&
      t == (if s.dir.value.entries == 0
            then At(s, p, Reported(Report(phase.lines, true))).(dir := None, creator := None)
            else At(s, p, Dead))
    case WriteReport => phase.Reported? && t == s
    case PipelineWrites(d) => phase.Running? && s.dir.Some? && Grows(s.dir.value, d) && t == s.(dir := Some(d))
    case PipelineEnds => phase.Running? && t == At(s, p, Finishing)
    case WriteEvidence(d) =>
      && phase.Finishing? && s.dir.Some? && Grows(s.dir.value, d) && d.entries > 0
      && t == At(s, p, Finished).(dir := Some(d))
    case Crash => t == At(s, p, Dead)
  }

  /** Anything else on the machine may add files to the directory. */
  ghost predicate Outside(s: State, t: State) {
    s.dir.Some? && t.dir.Some? && Grows(s.dir.value, t.dir.value) && t == s.(dir := t.dir)
  }

  ghost predicate Next(s: State, t: State) {
    Outside(s, t) || exists p, a :: Step(s, p, a, t)
  }

  /** The directory may or may not be there to begin with. */
  ghost predicate Init(s: State) { s.phases == map[] && s.creator == None && s.entered == 0 }

  ghost predicate IsRun(run: seq<State>) {
    run != [] && Init(run[0]) && forall i :: 0 < i < |run| ==> Next(run[i - 1], run[i])
  }

  /** Phases between a successful mkdir and letting go of the directory. */
  predicate Holds(phase: Phase) {
    phase.Setup? || phase.SetupFailed? || phase.Counted? || phase.Emptied? || phase.Running? || phase.Finishing?
  }

  predicate Past(phase: Phase) { phase.Running? || phase.Finishing? || phase.Finished? || phase.Dead? }

  /** An attempt holds the directory only while the directory is its own; and once somebody entered the
      pipeline, the directory is that attempt's for good. */
  ghost predicate Inv(s: State) {
    && (s.creator.Some? ==> s.dir.Some?)
    && (forall p: Pid :: Holds(PhaseOf(s, p)) ==> s.creator == Some(p))
    && s.entered <= 1
    && (s.entered == 1 ==> s.creator.Some? && Past(PhaseOf(s, s.creator.value)))
    && (s.entered == 0 ==> forall p: Pid :: !PhaseOf(s, p).Running? && !PhaseOf(s, p).Finishing?)
  }

  lemma StepKeeps(s: State, p: Pid, a: Action, t: State)
    requires Inv(s) && Step(s, p, a, t)
    ensures Inv(t)
  {
    assert PhaseOf(t, p) == if p in t.phases then t.phases[p] else Start;
    forall q: Pid | q != p ensures PhaseOf(t, q) == PhaseOf(s, q) {
    }
  }

  lemma {:induction false} RunKeeps(run: seq<State>, i: nat)
    requires IsRun(run) && i < |run|
    ensures Inv(run[i])
  {
    if i > 0 {
      RunKeeps(run, i - 1);
      if !Outside(run[i - 1], run[i]) {
        var p, a :| Step(run[i - 1], p, a, run[i]);
        StepKeeps(run[i - 1], p, a, run[i]);
      }
    }
  }

  /** Whatever the interleaving and wherever attempts die, the pipeline is entered at most once. */
  lemma AtMostOneEnters(run: seq<State>, i: nat)
    requires IsRun(run) && i < |run|
    ensures run[i].entered <= 1
    ensures forall p: Pid, q: Pid :: PhaseOf(run[i], p).Running? && PhaseOf(run[i], q).Running? ==> p == q
  {
    RunKeeps(run, i);
  }

  /** An attempt that looks for the directory or tries to make it is refused exactly when it is there, and a
      refusal touches nothing. */
  lemma RefusedExactly(s: State, p: Pid, a: Action, t: State)
    requires Step(s, p, a, t)
    ensures PhaseOf(t, p).Refused? && !PhaseOf(s, p).Refused? <==> (a.Check? || a.Mkdir?) && s.dir.Some?
    ensures PhaseOf(t, p).Refused? ==> t.dir == s.dir && t.creator == s.creator && t.entered == s.entered
    ensures a.Mkdir? && s.dir.None? ==> t.dir == Some(Directory(0, 0)) && t.creator == Some(p)
    ensures t.dir != s.dir && t.dir.None? ==>
              a.Rmdir? && s.dir.value.entries == 0 && PhaseOf(t, p).Reported? && PhaseOf(t, p).record.removed
  {
  }

  // ----- when a later attempt can still proceed -----

  /** From here on, nobody can get in any more. */
  ghost predicate Closed(s: State) {
    && s.dir.Some?
    && forall p: Pid ::
         && !PhaseOf(s, p).Setup? && !PhaseOf(s, p).SetupFailed?
         && !PhaseOf(s, p).Counted? && !PhaseOf(s, p).Emptied?
  }

  lemma ClosedStep(s: State, t: State)
    requires Closed(s) && Next(s, t)
    ensures Closed(t) && t.entered == s.entered
  {
    if !Outside(s, t) {
      var p, a :| Step(s, p, a, t);
      forall q: Pid | q != p ensures PhaseOf(t, q) == PhaseOf(s, q) {
      }
    } else {
      forall q: Pid ensures PhaseOf(t, q) == PhaseOf(s, q) {
      }
    }
  }

  /** A fresh attempt running alone: check, mkdir, setup. */
  function Alone(s: State, p: Pid): State {
    var made := At(At(s, p, Absent), p, Setup).(dir := Some(Directory(0, 0)), creator := Some(p));
    At(made, p, Running).(entered := s.entered + 1)
  }

  /** Some continuation of the run has one more entry into the pipeline. */
  ghost predicate CanEnter(s: State) {
    exists path: seq<State> :: IsPath(path, s) && path[|path| - 1].entered > s.entered
  }

  ghost predicate IsPath(path: seq<State>, s: State) {
    path != [] && path[0] == s && forall i :: 0 < i < |path| ==> Next(path[i - 1], path[i])
  }

  /** The directory is there, nobody is setting up, and no handler has an empty directory to remove. */
  ghost predicate Shut(s: State) {
    && s.dir.Some?
    && forall p: Pid :: !PhaseOf(s, p).Setup? && (Handling(PhaseOf(s, p)) ==> s.dir.value.entries > 0)
  }

  predicate Handling(phase: Phase) { phase.SetupFailed? || phase.Counted? || phase.Emptied? }

  lemma ShutStep(s: State, t: State)
    requires Shut(s) && Next(s, t)
    ensures Shut(t) && t.entered == s.entered
  {
    if !Outside(s, t) {
      var p, a :| Step(s, p, a, t);
      forall q: Pid | q != p ensures PhaseOf(t, q) == PhaseOf(s, q) {
      }
    } else {
      forall q: Pid ensures PhaseOf(t, q) == PhaseOf(s, q) {
      }
    }
  }

  lemma {:induction false} ShutPath(path: seq<State>, s: State)
    requires Shut(s) && IsPath(path, s)
    ensures Shut(path[|path| - 1]) && path[|path| - 1].entered == s.entered
  {
    var n := |path| - 1;
    if n > 0 {
      assert path[..n][0] == s;
      ShutPath(path[..n], s);
      assert Next(path[n - 1], path[n]);
      ShutStep(path[n - 1], path[n]);
    }
  }

  lemma EntersAfter(s: State, t: State)
    requires Next(s, t) && t.entered == s.entered && CanEnter(t)
    ensures CanEnter(s)
  {
    var path: seq<State> :| IsPath(path, t) && path[|path| - 1].entered > t.entered;
    var longer := [s] + path;
    forall i | 0 < i < |longer| ensures Next(longer[i - 1], longer[i]) {
      assert longer[i] == path[i - 1];
      if i > 1 {
        assert longer[i - 1] == path[i - 2] && Next(path[i - 2], path[i - 1]);
      }
    }
    assert IsPath(longer, s) && longer[|longer| - 1] == path[|path| - 1];
  }

  lemma EntersNow(s: State, p: Pid)
    requires PhaseOf(s, p).Setup?
    ensures CanEnter(s)
  {
    var t := At(s, p, Running).(entered := s.entered + 1);
    assert Step(s, p, SetupSucceeds, t);
    assert IsPath([s, t], s) && [s, t][1].entered > s.entered;
  }

  lemma EntersWhenAbsent(s: State)
    requires s.dir.None?
    ensures CanEnter(s)
  {
    var p := Unused(s.phases.Keys);
    var a := At(s, p, Absent);
    var b := At(a, p, Setup).(dir := Some(Directory(0, 0)), creator := Some(p));
    assert Step(s, p, Check, a) && Step(a, p, Mkdir, b);
    EntersNow(b, p);
    EntersAfter(a, b);
    EntersAfter(s, a);
  }

  /** There is always one more attempt to make. */
  lemma {:induction false} Unused(pids: set<Pid>) returns (p: Pid)
    ensures p !in pids && forall q :: q in pids ==> q < p
    decreases |pids|
  {
    if pids == {} {
      p := 0;
    } else {
      var q :| q in pids;
      var r := Unused(pids - {q});
      p := if q >= r then q + 1 else r;
      assert forall x :: x in pids ==> x == q || x in pids - {q};
    }
  }

  lemma EntersAfterHandling(s: State, p: Pid)
    requires Handling(PhaseOf(s, p)) && s.dir.Some? && s.dir.value.entries == 0
    ensures CanEnter(s)
    decreases match PhaseOf(s, p) case SetupFailed => 2 case Counted(_) => 1 case _ => 0
  {
    match PhaseOf(s, p)
    case SetupFailed =>
      var t := At(s, p, Counted(s.dir.value.lines));
      assert Step(s, p, CountCalls, t);
      EntersAfterHandling(t, p);
      EntersAfter(s, t);
    case Counted(lines) =>
      var t := At(s, p, Emptied(lines));
      assert Step(s, p, LookInside, t);
      EntersAfterHandling(t, p);
      EntersAfter(s, t);
    case Emptied(lines) =>
      var t := At(s, p, Reported(Report(lines, true))).(dir := None, creator := None);
      assert Step(s, p, Rmdir, t);
      EntersWhenAbsent(t);
      EntersAfter(s, t);
  }

  /** The pipeline can still be entered exactly when the directory is absent, or an attempt is setting up, or a
      failure handler has yet to remove an empty directory. */
  lemma CanProceedExactly(s: State)
    ensures CanEnter(s) <==>
              || s.dir.None?
              || exists p: Pid :: PhaseOf(s, p).Setup? || (Handling(PhaseOf(s, p)) && s.dir.value.entries == 0)
  {
    if s.dir.None? {
      EntersWhenAbsent(s);
    } else if p: Pid :| PhaseOf(s, p).Setup? || (Handling(PhaseOf(s, p)) && s.dir.value.entries == 0) {
      if PhaseOf(s, p).Setup? {
        EntersNow(s, p);
      } else {
        EntersAfterHandling(s, p);
      }
    } else {
      forall path: seq<State> | IsPath(path, s) ensures path[|path| - 1].entered == s.entered {
        ShutPath(path, s);
      }
    }
  }

  /** In a run this ends with the first entry: nobody can get in after it. */
  lemma EnteredIsShut(run: seq<State>, i: nat)
    requires IsRun(run) && i < |run| && run[i].entered == 1
    ensures !CanEnter(run[i])
  {
    RunKeeps(run, i);
    CanProceedExactly(run[i]);
  }

  lemma {:induction false} ClosedForever(run: seq<State>, i: nat, j: nat)
    requires IsRun(run) && i <= j < |run| && Closed(run[i])
    ensures Closed(run[j]) && run[j].entered == run[i].entered
    decreases j
  {
    if i < j {
      ClosedForever(run, i, j - 1);
      ClosedStep(run[j - 1], run[j]);
    }
  }

  /** The caught setup failure of an attempt, run to its end with nothing else writing: the directory goes
      away exactly when it was empty, and then the attempt counts as not made. */
  function Handled(s: State, p: Pid): State
    requires s.dir.Some?
  {
    var d := s.dir.value;
    var lines := d.lines;
    if d.entries == 0 then At(s, p, Reported(Report(lines, true))).(dir := None, creator := None)
    else At(s, p, Reported(Report(lines, false)))
  }

  lemma SetterOverwrites(s: State, p: Pid, x: Phase, y: Phase)
    ensures At(At(s, p, x), p, y) == At(s, p, y)
  {
    assert s.phases[p := x][p := y] == s.phases[p := y];
  }

  lemma CaughtFailure(s: State, p: Pid)
    requires PhaseOf(s, p).SetupFailed? && s.dir.Some?
    ensures var counted := At(s, p, Counted(s.dir.value.lines));
            Step(s, p, CountCalls, counted) &&
            if s.dir.value.entries > 0 then Step(counted, p, LookInside, Handled(s, p))
            else exists emptied :: Step(counted, p, LookInside, emptied) && Step(emptied, p, Rmdir, Handled(s, p))
    ensures Handled(s, p).dir.None? <==> s.dir.value.entries == 0
  {
    var n := s.dir.value.lines;
    var counted := At(s, p, Counted(n));
    if s.dir.value.entries > 0 {
      SetterOverwrites(s, p, Counted(n), Reported(Report(n, false)));
    } else {
      var emptied := At(counted, p, Emptied(n));
      assert Step(counted, p, LookInside, emptied);
      SetterOverwrites(s, p, Counted(n), Emptied(n));
      SetterOverwrites(s, p, Emptied(n), Reported(Report(n, true)));
      assert Step(emptied, p, Rmdir, Handled(s, p));
    }
  }

  /** The report's note says the directory was removed whenever no call was counted. */
  predicate NoteSaysRemoved(r: Report) { r.backendCalls == 0 }

  /** That note is true exactly when the directory held nothing, or held calls: with other files in it and
      no call, the note claims a removal that did not happen. */
  lemma NoteIsTrueExactly(s: State, p: Pid)
    requires PhaseOf(s, p).SetupFailed? && s.dir.Some? && Grows(Directory(0, 0), s.dir.value)
    ensures var r := PhaseOf(Handled(s, p), p).record;
            NoteSaysRemoved(r) == r.removed <==> s.dir.value.entries == 0 || s.dir.value.lines > 0
  {
  }

  /** And there is a run on which it is false: setup makes the directory, leaves one file in it and raises. */
  lemma NoteCanBeFalse(p: Pid) returns (run: seq<State>)
    ensures IsRun(run)
    ensures var r := PhaseOf(run[|run| - 1], p);
            r == Reported(Report(0, false)) && NoteSaysRemoved(r.record) && run[|run| - 1].dir.Some?
  {
    var s := State(None, map[], None, 0);
    var a := At(s, p, Absent);
    var b := At(a, p, Setup).(dir := Some(Directory(0, 0)), creator := Some(p));
    var c := b.(dir := Some(Directory(1, 0)));
    var d := At(c, p, SetupFailed);
    var e := At(d, p, Counted(0));
    var f := At(e, p, Reported(Report(0, false)));
    assert Step(s, p, Check, a) && Step(a, p, Mkdir, b) && Step(b, p, SetupWrites(Directory(1, 0)), c);
    assert Step(c, p, SetupRaises, d) && Step(d, p, CountCalls, e) && Step(e, p, LookInside, f);
    run := [s, a, b, c, d, e, f];
  }
}
