/** Running an authored sequence step by step or all at once, over a deterministic engine. */
module TestCases {
  import opened Lifecycle

  /** The engine after a sequence of steps, and the results on the way. */
  function RunFrom<Engine, Spec>(step: (Engine, Spec) -> (Engine, InteractionResult), start: Engine,
                                 specs: seq<Spec>): (Engine, History) {
    if specs == [] then (start, []) else
    var (engine, history) := RunFrom(step, start, specs[..|specs| - 1]);
    var (after, result) := step(engine, specs[|specs| - 1]);
    (after, history + [result])
  }

  lemma RunNextIs<Engine, Spec>(step: (Engine, Spec) -> (Engine, InteractionResult), start: Engine, specs: seq<Spec>,
                                spec: Spec)
    ensures var (engine, history) := RunFrom(step, start, specs);
            var (after, result) := step(engine, spec);
            RunFrom(step, start, specs + [spec]) == (after, history + [result])
  {
    assert (specs + [spec])[..|specs|] == specs;
  }

  /** Each step ran its own spec on the engine the step before it left, the first on the clean one. */
  ghost predicate Traces<Engine, Spec>(step: (Engine, Spec) -> (Engine, InteractionResult), specs: seq<Spec>,
                                       engines: seq<Engine>, history: History) {
    && |engines| == |specs| + 1 && |history| == |specs|
    && forall i :: 0 <= i < |specs| ==> step(engines[i], specs[i]) == (engines[i + 1], history[i])
  }

  lemma {:induction false} RunTraces<Engine, Spec>(step: (Engine, Spec) -> (Engine, InteractionResult), start: Engine,
                                                   specs: seq<Spec>) returns (engines: seq<Engine>)
    ensures Traces(step, specs, engines, RunFrom(step, start, specs).1)
    ensures engines[0] == start && engines[|specs|] == RunFrom(step, start, specs).0
  {
    if specs == [] {
      engines := [start];
    } else {
      var n := |specs| - 1;
      var before := RunTraces(step, start, specs[..n]);
      engines := before + [step(before[n], specs[n]).0];
    }
  }

  class TestCase<Engine, Spec> {
    const start: Engine
    const step: (Engine, Spec) -> (Engine, InteractionResult)
    var sequence: seq<Spec>
    var engine: Engine
    var history: History
    var ranCount: nat
    ghost var ran: seq<Spec>

    /** The engine and the history are what running `ran` from a clean start gives. */
    ghost predicate Valid()
      reads this
    {
      (engine, history) == RunFrom(step, start, ran) && ranCount == |ran|
    }

    /** What ran is what the sequence says, as far as it got. */
    ghost predicate InStep()
      reads this
    {
      ran <= sequence
    }

    constructor (start: Engine, step: (Engine, Spec) -> (Engine, InteractionResult))
      ensures Valid() && InStep() && sequence == [] && ran == []
      ensures this.start == start && this.step == step
    {
      this.start, this.step := start, step;
      sequence, engine, history, ranCount, ran := [], start, [], 0, [];
    }

    method Build()
      modifies `engine, `history, `ranCount, `ran
      ensures Valid() && InStep() && ran == []
    {
      engine, history, ranCount, ran := start, [], 0, [];
    }

    method AddEvidence(spec: Spec)
      requires Valid()
      modifies `sequence
      ensures Valid() && sequence == old(sequence) + [spec] && (old(InStep()) ==> InStep())
    {
      sequence := sequence + [spec];
    }

    /** Replaces the sequence and leaves the run where it was. */
    method LoadSequence(specs: seq<Spec>)
      requires Valid()
      modifies `sequence
      ensures Valid() && sequence == specs && (InStep() <==> old(ran) <= specs)
    {
      sequence := specs;
    }

    method Advance(spec: Spec)
      requires Valid()
      modifies `engine, `history, `ranCount, `ran
      ensures Valid() && ran == old(ran) + [spec]
    {
      RunNextIs(step, start, ran, spec);
      var (after, result) := step(engine, spec);
      engine, history, ranCount := after, history + [result], ranCount + 1;
      ran := ran + [spec];
    }

    method RunNext()
      requires Valid()
      modifies `engine, `history, `ranCount, `ran
      ensures Valid()
      ensures ran == if |old(ran)| < |sequence| then old(ran) + [sequence[|old(ran)|]] else old(ran)
      ensures old(InStep()) ==> InStep()
    {
      if ranCount < |sequence| {
        Advance(sequence[ranCount]);
      }
    }

    /** A clean rebuild and one pass: whatever ran before, the history is the sequence's own. */
    method RunAll()
      modifies `engine, `history, `ranCount, `ran
      ensures Valid() && ran == sequence
      ensures (engine, history) == RunFrom(step, start, sequence)
    {
      Build();
      for i := 0 to |sequence|
        invariant Valid() && ran == sequence[..i]
      {
        Advance(sequence[i]);
      }
      assert sequence[..|sequence|] == sequence;
    }
  }

  /** Stepping through to the end adds the part of the sequence that has not run yet, and so arrives where
      running everything does exactly when the case was in step: not after another sequence was loaded over
      a run it does not begin with. */
  method StepThrough<Engine, Spec>(tc: TestCase<Engine, Spec>)
    requires tc.Valid()
    modifies tc`engine, tc`history, tc`ranCount, tc`ran
    ensures tc.Valid() && (tc.engine, tc.history) == RunFrom(tc.step, tc.start, tc.ran)
    ensures tc.ran == if |old(tc.ran)| < |tc.sequence| then old(tc.ran) + tc.sequence[|old(tc.ran)|..] else old(tc.ran)
    ensures tc.ran == tc.sequence <==> old(tc.InStep())
  {
    ghost var before := tc.ran;
    while tc.ranCount < |tc.sequence|
      invariant tc.Valid()
      invariant if |before| <= |tc.sequence|
                then |before| <= |tc.ran| <= |tc.sequence| && tc.ran == before + tc.sequence[|before|..|tc.ran|]
                else tc.ran == before
      decreases |tc.sequence| - tc.ranCount
    {
      tc.RunNext();
    }
    if |before| <= |tc.sequence| {
      assert tc.sequence[|before|..|tc.sequence|] == tc.sequence[|before|..];
      assert before <= tc.sequence ==> tc.ran == tc.sequence;
    }
  }
}
