/** `FandangoPostMutationalStage`: per cycle, one grammar seed is evaluated
    unchanged, then `1 + between(min, max)` fresh clones of it are mutated by
    a native mutator and evaluated unless the mutator skipped them.

    The random draw, the mutator chain and the fuzzer's evaluation primitive
    are parameters: `mutate(i, b)` is the `i`-th mutation of clone `b` (the
    new content of the clone, or an error), `evaluate(k, b)` the `k`-th
    `evaluate_filtered` call (a corpus id if stored), `postExec(k, id)` the
    `k`-th `post_exec` call. A ghost trace records every call, in order. */
module Stage {
  import opened Common
  import opened Fandango

  type CorpusId = nat

  /** One call made by `Perform`. */
  datatype Event =
    | Draw(value: nat)                  // `rand.between(min, max)`
    | Evaluate(k: nat, input: Bytes)    // `evaluate_filtered`
    | PostExec(k: nat, id: Option<CorpusId>)
    | Mutate(k: nat, input: Bytes)      // the clone handed to the mutator

  type Mutator = (nat, Bytes) -> Result<(MutationResult, Bytes), Error>
  type Evaluator = (nat, Bytes) -> Result<Option<CorpusId>, Error>
  type PostExecHook = (nat, Option<CorpusId>) -> Outcome<Error>

  function CountMutates(t: seq<Event>): nat {
    if t == [] then 0 else CountMutates(t[..|t| - 1]) + (if t[|t| - 1].Mutate? then 1 else 0)
  }

  function CountEvaluations(t: seq<Event>): nat {
    if t == [] then 0 else CountEvaluations(t[..|t| - 1]) + (if t[|t| - 1].Evaluate? then 1 else 0)
  }

  /** How many of the first `n` mutations of `seed` were not skipped. */
  function NotSkipped(mutate: Mutator, seed: Bytes, n: nat): nat {
    if n == 0 then 0
    else NotSkipped(mutate, seed, n - 1)
         + (if mutate(n - 1, seed).Ok? && mutate(n - 1, seed).value.0 == Mutated then 1 else 0)
  }

  lemma {:induction false} NotSkippedBound(mutate: Mutator, seed: Bytes, n: nat)
    ensures NotSkipped(mutate, seed, n) <= n
  {
    if n > 0 {
      NotSkippedBound(mutate, seed, n - 1);
    }
  }

  /** With no skipped mutation, every mutation is counted. */
  lemma {:induction false} NoSkipsCountsAll(mutate: Mutator, seed: Bytes, n: nat)
    requires forall i :: 0 <= i < n ==> mutate(i, seed).Ok? && mutate(i, seed).value.0 == Mutated
    ensures NotSkipped(mutate, seed, n) == n
  {
    if n > 0 {
      NoSkipsCountsAll(mutate, seed, n - 1);
    }
  }

  /** Call `a` may be followed by call `b`: the draw by an evaluation; an
      evaluation by exactly one `post_exec` with its corpus id; a skipped
      mutation by the next mutation; any other mutation by the evaluation of
      its result; a `post_exec` that passed by the next mutation, and one
      that failed by nothing. A `post_exec` only ever comes right after an
      evaluation, and the draw is never repeated. */
  ghost predicate Link(a: Event, b: Event, mutate: Mutator, evaluate: Evaluator, postExec: PostExecHook)
  {
    && !b.Draw?
    && (a.Draw? ==> b.Evaluate?)
    && (a.Evaluate? ==>
          evaluate(a.k, a.input).Ok? && b == PostExec(a.k, evaluate(a.k, a.input).value))
    && (a.Mutate? ==>
          && mutate(a.k, a.input).Ok?
          && if mutate(a.k, a.input).value.0 == Skipped then b.Mutate?
             else b.Evaluate? && b.input == mutate(a.k, a.input).value.1)
    && (a.PostExec? ==> postExec(a.k, a.id).Pass? && b.Mutate?)
    && (b.PostExec? ==> a.Evaluate?)
  }

  /** Every two consecutive calls of `t` are linked. */
  ghost predicate Follows(t: seq<Event>, mutate: Mutator, evaluate: Evaluator, postExec: PostExecHook)
    decreases |t|
  {
    |t| <= 1 || (Follows(t[..|t| - 1], mutate, evaluate, postExec)
                 && Link(t[|t| - 2], t[|t| - 1], mutate, evaluate, postExec))
  }

  /** Every clone handed to the mutator equals `seed`. */
  ghost predicate ClonesOf(t: seq<Event>, seed: Bytes)
    decreases |t|
  {
    t == [] || (ClonesOf(t[..|t| - 1], seed) && (t[|t| - 1].Mutate? ==> t[|t| - 1].input == seed))
  }

  /** The `j`-th mutation is the mutator's call number `j`, and the `j`-th
      evaluation is the evaluator's call number `j` (its `post_exec` carries
      the same number, as `Link` says). */
  ghost predicate Numbered(t: seq<Event>)
    decreases |t|
  {
    t == [] ||
      var init := t[..|t| - 1];
      && Numbered(init)
      && (t[|t| - 1].Mutate? ==> t[|t| - 1].k == CountMutates(init))
      && (t[|t| - 1].Evaluate? ==> t[|t| - 1].k == CountEvaluations(init))
  }

  /** `Follows` read position by position. */
  lemma {:induction false} FollowsAt(t: seq<Event>, mutate: Mutator, evaluate: Evaluator,
                                     postExec: PostExecHook, j: nat)
    requires Follows(t, mutate, evaluate, postExec) && j + 1 < |t|
    ensures Link(t[j], t[j + 1], mutate, evaluate, postExec)
    decreases |t|
  {
    if j + 2 < |t| {
      var init := t[..|t| - 1];
      FollowsAt(init, mutate, evaluate, postExec, j);
      assert init[j] == t[j] && init[j + 1] == t[j + 1];
    }
  }

  /** `ClonesOf` read position by position. */
  lemma {:induction false} ClonesAt(t: seq<Event>, seed: Bytes, j: nat)
    requires ClonesOf(t, seed) && j < |t| && t[j].Mutate?
    ensures t[j].input == seed
    decreases |t|
  {
    if j + 1 < |t| {
      ClonesAt(t[..|t| - 1], seed, j);
    }
  }

  /** `Numbered` read position by position. */
  lemma {:induction false} NumberedAt(t: seq<Event>, j: nat)
    requires Numbered(t) && j < |t|
    ensures t[j].Mutate? ==> t[j].k == CountMutates(t[..j])
    ensures t[j].Evaluate? ==> t[j].k == CountEvaluations(t[..j])
    decreases |t|
  {
    if j + 1 < |t| {
      var init := t[..|t| - 1];
      NumberedAt(init, j);
      assert init[..j] == t[..j];
    }
  }

  /** The trace ends at a point where the loop may stop or go on: after a
      `post_exec` that passed, or after a skipped mutation. */
  ghost predicate Settled(t: seq<Event>, mutate: Mutator, postExec: PostExecHook)
  {
    && |t| > 0
    && var last := t[|t| - 1];
    && ((last.PostExec? && postExec(last.k, last.id).Pass?)
        || (last.Mutate? && mutate(last.k, last.input).Ok?
            && mutate(last.k, last.input).value.0 == Skipped))
  }

  /** Appending one call keeps the counts, the links, the clones and the
      numbering in step. */
  lemma Append(t: seq<Event>, e: Event, mutate: Mutator, evaluate: Evaluator, postExec: PostExecHook, seed: Bytes)
    requires |t| > 0 && Follows(t, mutate, evaluate, postExec) && Link(t[|t| - 1], e, mutate, evaluate, postExec)
    requires ClonesOf(t, seed) && (e.Mutate? ==> e.input == seed)
    requires Numbered(t)
    requires e.Mutate? ==> e.k == CountMutates(t)
    requires e.Evaluate? ==> e.k == CountEvaluations(t)
    ensures Follows(t + [e], mutate, evaluate, postExec) && ClonesOf(t + [e], seed) && Numbered(t + [e])
    ensures CountMutates(t + [e]) == CountMutates(t) + (if e.Mutate? then 1 else 0)
    ensures CountEvaluations(t + [e]) == CountEvaluations(t) + (if e.Evaluate? then 1 else 0)
  {
    assert (t + [e])[..|t|] == t;
  }

  /** The last call failed with `err`. */
  ghost predicate FailedWith(e: Event, err: Error, mutate: Mutator, evaluate: Evaluator, postExec: PostExecHook)
  {
    match e
    case Mutate(k, b) => mutate(k, b).Err? && mutate(k, b).error == err
    case Evaluate(k, b) => evaluate(k, b) == Err(err)
    case PostExec(k, id) => postExec(k, id) == Fail(err)
    case _ => false
  }

  /** What a cycle's trace always satisfies: the draw comes first, then the
      evaluation of the unmodified seed as call 0; every clone handed to the
      mutator equals the seed; calls are numbered in order and follow each
      other as `Link` says. */
  ghost predicate WellFormed(trace: seq<Event>, seed: Bytes, draw: nat,
                             mutate: Mutator, evaluate: Evaluator, postExec: PostExecHook)
  {
    && |trace| >= 2 && trace[0] == Draw(draw)
    && trace[1] == Evaluate(0, seed)
    && ClonesOf(trace, seed)
    && Numbered(trace)
    && Follows(trace, mutate, evaluate, postExec)
  }

  /** What one cycle on `seed` did, as recorded in `trace`: a well-formed
      trace; a failure is the error of the last call, made within the
      `1 + draw` iterations; on success the last call is a passing
      `post_exec` or a skipped mutation, the loop ran `1 + draw` times and
      every non-skipped mutation was evaluated once. */
  ghost predicate CycleDone(seed: Bytes, draw: nat, minIterations: nat, maxIterations: nat,
                            r: Outcome<Error>, trace: seq<Event>,
                            mutate: Mutator, evaluate: Evaluator, postExec: PostExecHook)
  {
    && WellFormed(trace, seed, draw, mutate, evaluate, postExec)
    && (r.Fail? ==> FailedWith(trace[|trace| - 1], r.error, mutate, evaluate, postExec)
                    && CountMutates(trace) <= 1 + draw)
    && (r.Pass? ==>
          && Settled(trace, mutate, postExec)
          && CountMutates(trace) == 1 + draw
          && CountEvaluations(trace) == 1 + NotSkipped(mutate, seed, 1 + draw)
          && minIterations + 1 <= CountMutates(trace) <= maxIterations + 1
          && 1 <= CountEvaluations(trace) <= maxIterations + 2)
  }

  /** A cycle passes only if every `post_exec` passed, and a failed
      `post_exec` is always the last call; the `j`-th mutation and the
      `j`-th evaluation are the oracles' calls number `j`. */
  lemma CycleCalls(seed: Bytes, draw: nat, minIterations: nat, maxIterations: nat,
                   r: Outcome<Error>, trace: seq<Event>,
                   mutate: Mutator, evaluate: Evaluator, postExec: PostExecHook)
    requires CycleDone(seed, draw, minIterations, maxIterations, r, trace, mutate, evaluate, postExec)
    ensures forall j :: 0 <= j < |trace| - 1 && trace[j].PostExec? ==> postExec(trace[j].k, trace[j].id).Pass?
    ensures r.Pass? ==> forall j :: 0 <= j < |trace| && trace[j].PostExec? ==> postExec(trace[j].k, trace[j].id).Pass?
    ensures forall j :: 0 <= j < |trace| && trace[j].Mutate? ==> trace[j].k == CountMutates(trace[..j])
    ensures forall j :: 0 <= j < |trace| && trace[j].Evaluate? ==> trace[j].k == CountEvaluations(trace[..j])
  {
    forall j | 0 <= j < |trace| - 1 && trace[j].PostExec?
      ensures postExec(trace[j].k, trace[j].id).Pass?
    {
      FollowsAt(trace, mutate, evaluate, postExec, j);
    }
    forall j | 0 <= j < |trace|
      ensures trace[j].Mutate? ==> trace[j].k == CountMutates(trace[..j])
      ensures trace[j].Evaluate? ==> trace[j].k == CountEvaluations(trace[..j])
    {
      NumberedAt(trace, j);
    }
  }

  /** Counting over a prefix never counts more. */
  lemma {:induction false} CountMutatesPrefix(t: seq<Event>, n: nat)
    requires n <= |t|
    ensures CountMutates(t[..n]) <= CountMutates(t)
    decreases |t|
  {
    if n < |t| {
      var init := t[..|t| - 1];
      assert init[..n] == t[..n];
      CountMutatesPrefix(init, n);
    } else {
      assert t[..n] == t;
    }
  }

  /** In two well-formed traces of the same cycle, equal prefixes are
      followed by the same call: each call is decided by the one before it,
      the call numbers and the seed. */
  lemma NextDetermined(t1: seq<Event>, t2: seq<Event>, j: nat, seed: Bytes, draw: nat,
                       mutate: Mutator, evaluate: Evaluator, postExec: PostExecHook)
    requires WellFormed(t1, seed, draw, mutate, evaluate, postExec)
    requires WellFormed(t2, seed, draw, mutate, evaluate, postExec)
    requires j + 1 < |t1| && j + 1 < |t2| && t1[..j + 1] == t2[..j + 1]
    ensures t1[j + 1] == t2[j + 1]
  {
    if j > 0 {
      var a := t1[j];
      assert a == t2[j] by { assert t1[..j + 1][j] == t2[..j + 1][j]; }
      FollowsAt(t1, mutate, evaluate, postExec, j - 1);
      FollowsAt(t1, mutate, evaluate, postExec, j);
      FollowsAt(t2, mutate, evaluate, postExec, j);
      NumberedAt(t1, j + 1);
      NumberedAt(t2, j + 1);
      if t1[j + 1].Mutate? {
        ClonesAt(t1, seed, j + 1);
      }
      if t2[j + 1].Mutate? {
        ClonesAt(t2, seed, j + 1);
      }
    }
  }

  /** Two well-formed traces of the same cycle agree on their common length. */
  lemma {:induction false} PrefixAgree(t1: seq<Event>, t2: seq<Event>, n: nat, seed: Bytes, draw: nat,
                                       mutate: Mutator, evaluate: Evaluator, postExec: PostExecHook)
    requires WellFormed(t1, seed, draw, mutate, evaluate, postExec)
    requires WellFormed(t2, seed, draw, mutate, evaluate, postExec)
    requires 1 <= n <= |t1| && n <= |t2|
    ensures t1[..n] == t2[..n]
  {
    if n > 1 {
      PrefixAgree(t1, t2, n - 1, seed, draw, mutate, evaluate, postExec);
      NextDetermined(t1, t2, n - 2, seed, draw, mutate, evaluate, postExec);
      assert t1[..n] == t1[..n - 1] + [t1[n - 1]];
      assert t2[..n] == t2[..n - 1] + [t2[n - 1]];
    }
  }

  /** A finished cycle that is a proper prefix of another well-formed
      trace passed, and the longer trace goes on with one more mutation than
      the draw allows: a failing call is never followed, and after a
      completed loop only a mutation can follow. */
  lemma NoLongerCycle(t1: seq<Event>, r1: Outcome<Error>, t2: seq<Event>,
                      seed: Bytes, draw: nat, minIterations: nat, maxIterations: nat,
                      mutate: Mutator, evaluate: Evaluator, postExec: PostExecHook)
    requires CycleDone(seed, draw, minIterations, maxIterations, r1, t1, mutate, evaluate, postExec)
    requires WellFormed(t2, seed, draw, mutate, evaluate, postExec)
    requires |t1| < |t2| && t1 == t2[..|t1|]
    ensures r1.Pass? && CountMutates(t2) > 1 + draw
  {
    var n := |t1|;
    FollowsAt(t2, mutate, evaluate, postExec, n - 1);
    assert t2[n - 1] == t1[n - 1];
    assert t2[n].Mutate?;
    assert t2[..n + 1][..n] == t1;
    assert CountMutates(t2[..n + 1]) == CountMutates(t1) + 1;
    CountMutatesPrefix(t2, n + 1);
  }

  /** The cycle is a function of its inputs: two runs on the same seed,
      draw and oracles make the same calls and end the same way. */
  lemma CycleUnique(seed: Bytes, draw: nat, minIterations: nat, maxIterations: nat,
                    r1: Outcome<Error>, t1: seq<Event>, r2: Outcome<Error>, t2: seq<Event>,
                    mutate: Mutator, evaluate: Evaluator, postExec: PostExecHook)
    requires CycleDone(seed, draw, minIterations, maxIterations, r1, t1, mutate, evaluate, postExec)
    requires CycleDone(seed, draw, minIterations, maxIterations, r2, t2, mutate, evaluate, postExec)
    ensures t1 == t2 && r1 == r2
  {
    if |t1| < |t2| {
      PrefixAgree(t1, t2, |t1|, seed, draw, mutate, evaluate, postExec);
      assert t1[..|t1|] == t1;
      NoLongerCycle(t1, r1, t2, seed, draw, minIterations, maxIterations, mutate, evaluate, postExec);
      assert false;
    } else if |t2| < |t1| {
      PrefixAgree(t1, t2, |t2|, seed, draw, mutate, evaluate, postExec);
      assert t2[..|t2|] == t2;
      NoLongerCycle(t2, r2, t1, seed, draw, minIterations, maxIterations, mutate, evaluate, postExec);
      assert false;
    } else {
      PrefixAgree(t1, t2, |t1|, seed, draw, mutate, evaluate, postExec);
      assert t1 == t1[..|t1|] && t2 == t2[..|t2|];
    }
  }

  /** The loop invariant of `perform` after `i` iterations. */
  ghost predicate LoopDone(trace: seq<Event>, seed: Bytes, draw: nat, i: nat, evaluations: nat,
                           mutate: Mutator, evaluate: Evaluator, postExec: PostExecHook)
  {
    && |trace| >= 3
    && WellFormed(trace, seed, draw, mutate, evaluate, postExec)
    && Settled(trace, mutate, postExec)
    && CountMutates(trace) == i
    && evaluations == CountEvaluations(trace) == 1 + NotSkipped(mutate, seed, i)
  }

  /** A skipped iteration adds only the mutation. */
  ghost function SkippedStep(trace: seq<Event>, seed: Bytes, draw: nat, i: nat, evaluations: nat,
                             mutate: Mutator, evaluate: Evaluator, postExec: PostExecHook): (t: seq<Event>)
    requires LoopDone(trace, seed, draw, i, evaluations, mutate, evaluate, postExec)
    requires mutate(i, seed).Ok? && mutate(i, seed).value.0 == Skipped
    ensures t == trace + [Mutate(i, seed)]
    ensures LoopDone(t, seed, draw, i + 1, evaluations, mutate, evaluate, postExec)
  {
    Append(trace, Mutate(i, seed), mutate, evaluate, postExec, seed);
    trace + [Mutate(i, seed)]
  }

  /** Mid-iteration: the mutation of the seed into `out` was just recorded. */
  ghost predicate MutationDone(t: seq<Event>, seed: Bytes, draw: nat, i: nat, evaluations: nat,
                               out: Bytes, mutate: Mutator, evaluate: Evaluator, postExec: PostExecHook)
  {
    && |t| >= 3
    && WellFormed(t, seed, draw, mutate, evaluate, postExec)
    && t[|t| - 1] == Mutate(i, seed) && mutate(i, seed) == Ok((Mutated, out))
    && CountMutates(t) == i + 1
    && evaluations == CountEvaluations(t) == NotSkipped(mutate, seed, i + 1)
  }

  /** Mid-iteration: the evaluation of `out` was just recorded. */
  ghost predicate EvaluationDone(t: seq<Event>, seed: Bytes, draw: nat, i: nat, evaluations: nat,
                                 out: Bytes, mutate: Mutator, evaluate: Evaluator, postExec: PostExecHook)
  {
    && |t| >= 3
    && WellFormed(t, seed, draw, mutate, evaluate, postExec)
    && t[|t| - 1] == Evaluate(evaluations, out)
    && CountMutates(t) == i + 1
    && evaluations + 1 == CountEvaluations(t) == 1 + NotSkipped(mutate, seed, i + 1)
  }

  ghost function MutatedStep(trace: seq<Event>, seed: Bytes, draw: nat, i: nat, evaluations: nat,
                             out: Bytes, mutate: Mutator, evaluate: Evaluator, postExec: PostExecHook): (t: seq<Event>)
    requires LoopDone(trace, seed, draw, i, evaluations, mutate, evaluate, postExec)
    requires mutate(i, seed) == Ok((Mutated, out))
    ensures MutationDone(t, seed, draw, i, evaluations, out, mutate, evaluate, postExec)
  {
    Append(trace, Mutate(i, seed), mutate, evaluate, postExec, seed);
    var t := trace + [Mutate(i, seed)];
    assert t[0] == trace[0] && t[1] == trace[1];
    t
  }

  ghost function EvaluateStep(t1: seq<Event>, seed: Bytes, draw: nat, i: nat, evaluations: nat,
                              out: Bytes, mutate: Mutator, evaluate: Evaluator, postExec: PostExecHook): (t: seq<Event>)
    requires MutationDone(t1, seed, draw, i, evaluations, out, mutate, evaluate, postExec)
    ensures EvaluationDone(t, seed, draw, i, evaluations, out, mutate, evaluate, postExec)
  {
    Append(t1, Evaluate(evaluations, out), mutate, evaluate, postExec, seed);
    var t := t1 + [Evaluate(evaluations, out)];
    assert t[0] == t1[0] && t[1] == t1[1];
    t
  }

  ghost function PostExecStep(t2: seq<Event>, seed: Bytes, draw: nat, i: nat, evaluations: nat,
                              out: Bytes, id: Option<CorpusId>,
                              mutate: Mutator, evaluate: Evaluator, postExec: PostExecHook): (t: seq<Event>)
    requires EvaluationDone(t2, seed, draw, i, evaluations, out, mutate, evaluate, postExec)
    requires evaluate(evaluations, out) == Ok(id) && postExec(evaluations, id).Pass?
    ensures LoopDone(t, seed, draw, i + 1, evaluations + 1, mutate, evaluate, postExec)
    ensures t == t2 + [PostExec(evaluations, id)]
  {
    Append(t2, PostExec(evaluations, id), mutate, evaluate, postExec, seed);
    var t := t2 + [PostExec(evaluations, id)];
    assert t[0] == t2[0] && t[1] == t2[1];
    t
  }

  /** An iteration whose mutation `e` failed ends the cycle with its error. */
  ghost function FailedStep(trace: seq<Event>, e: Event, err: Error, seed: Bytes, draw: nat, i: nat,
                            evaluations: nat, minIterations: nat, maxIterations: nat,
                            mutate: Mutator, evaluate: Evaluator, postExec: PostExecHook): (t: seq<Event>)
    requires LoopDone(trace, seed, draw, i, evaluations, mutate, evaluate, postExec)
    requires e == Mutate(i, seed) && FailedWith(e, err, mutate, evaluate, postExec) && i <= draw
    ensures t == trace + [e]
    ensures CycleDone(seed, draw, minIterations, maxIterations, Fail(err), t, mutate, evaluate, postExec)
  {
    Append(trace, e, mutate, evaluate, postExec, seed);
    assert (trace + [e])[1] == trace[1];
    trace + [e]
  }

  ghost function FailedEvaluation(t2: seq<Event>, seed: Bytes, draw: nat, i: nat, evaluations: nat,
                                  out: Bytes, err: Error, minIterations: nat, maxIterations: nat,
                                  mutate: Mutator, evaluate: Evaluator, postExec: PostExecHook): (t: seq<Event>)
    requires EvaluationDone(t2, seed, draw, i, evaluations, out, mutate, evaluate, postExec)
    requires evaluate(evaluations, out) == Err(err) && i <= draw
    ensures CycleDone(seed, draw, minIterations, maxIterations, Fail(err), t, mutate, evaluate, postExec)
  {
    t2
  }

  /** A `post_exec` that failed is recorded and ends the cycle. */
  ghost function FailedPostExec(t2: seq<Event>, seed: Bytes, draw: nat, i: nat, evaluations: nat,
                                out: Bytes, id: Option<CorpusId>, err: Error,
                                minIterations: nat, maxIterations: nat,
                                mutate: Mutator, evaluate: Evaluator, postExec: PostExecHook): (t: seq<Event>)
    requires EvaluationDone(t2, seed, draw, i, evaluations, out, mutate, evaluate, postExec)
    requires evaluate(evaluations, out) == Ok(id) && postExec(evaluations, id) == Fail(err) && i <= draw
    ensures t == t2 + [PostExec(evaluations, id)]
    ensures CycleDone(seed, draw, minIterations, maxIterations, Fail(err), t, mutate, evaluate, postExec)
  {
    Append(t2, PostExec(evaluations, id), mutate, evaluate, postExec, seed);
    var t := t2 + [PostExec(evaluations, id)];
    assert t[0] == t2[0] && t[1] == t2[1];
    t
  }

  /** The draw and the evaluation of the unmodified seed, as call 0. */
  ghost function SeedStep(seed: Bytes, draw: nat,
                          mutate: Mutator, evaluate: Evaluator, postExec: PostExecHook): (t: seq<Event>)
    ensures t == [Draw(draw), Evaluate(0, seed)]
    ensures WellFormed(t, seed, draw, mutate, evaluate, postExec)
    ensures CountMutates(t) == 0 && CountEvaluations(t) == 1
  {
    var one: seq<Event> := [Draw(draw)];
    var t := [Draw(draw), Evaluate(0, seed)];
    assert one[..0] == [] && t[..1] == one;
    assert CountMutates(one) == CountMutates([]) == 0;
    assert CountEvaluations(one) == CountEvaluations([]) == 0;
    assert Follows(one, mutate, evaluate, postExec) && Link(one[0], Evaluate(0, seed), mutate, evaluate, postExec);
    assert ClonesOf(one, seed) && Numbered(one);
    t
  }

  /** The `post_exec` of the seed's evaluation: a failure ends the cycle,
      a pass lets the loop begin. */
  ghost function SeedPostExec(seed: Bytes, draw: nat, id: Option<CorpusId>,
                              minIterations: nat, maxIterations: nat,
                              mutate: Mutator, evaluate: Evaluator, postExec: PostExecHook): (t: seq<Event>)
    requires evaluate(0, seed) == Ok(id)
    ensures t == [Draw(draw), Evaluate(0, seed), PostExec(0, id)]
    ensures postExec(0, id).Fail? ==>
              CycleDone(seed, draw, minIterations, maxIterations, postExec(0, id), t, mutate, evaluate, postExec)
    ensures postExec(0, id).Pass? ==> LoopDone(t, seed, draw, 0, 1, mutate, evaluate, postExec)
  {
    var t2 := SeedStep(seed, draw, mutate, evaluate, postExec);
    Append(t2, PostExec(0, id), mutate, evaluate, postExec, seed);
    var t := t2 + [PostExec(0, id)];
    assert t[0] == t2[0] && t[1] == t2[1];
    t
  }

  lemma LoopFinished(trace: seq<Event>, seed: Bytes, draw: nat, iterations: nat, evaluations: nat,
                     minIterations: nat, maxIterations: nat,
                     mutate: Mutator, evaluate: Evaluator, postExec: PostExecHook)
    requires minIterations <= draw <= maxIterations && iterations == 1 + draw
    requires LoopDone(trace, seed, draw, iterations, evaluations, mutate, evaluate, postExec)
    ensures CycleDone(seed, draw, minIterations, maxIterations, Pass, trace, mutate, evaluate, postExec)
  {
    NotSkippedBound(mutate, seed, iterations);
  }

  const STAGE_NAME: string := "FandangoPostMutationalStage"
  const MAX_RETRIES: nat := 3

  class PostMutationalStage {
    const fandango: FandangoPythonModule
    const minIterations: nat
    const maxIterations: nat

    constructor (fandango: FandangoPythonModule, minIterations: nat, maxIterations: nat)
      ensures this.fandango == fandango
      ensures this.minIterations == minIterations && this.maxIterations == maxIterations
    {
      this.fandango := fandango;
      this.minIterations := minIterations;
      this.maxIterations := maxIterations;
    }

    /** `Named::name`. */
    function Name(): (r: string)
      ensures r == STAGE_NAME
    {
      STAGE_NAME
    }

    /** `perform`. `draw` is what `rand.between(min, max)` returns. */
    method Perform(draw: nat, mutate: Mutator, evaluate: Evaluator, postExec: PostExecHook)
      returns (r: Outcome<Error>, ghost trace: seq<Event>)
      requires minIterations <= draw <= maxIterations
      modifies fandango`calls
      ensures fandango.calls == old(fandango.calls) + 1
      ensures var gen := NextInputAt(fandango.unit, fandango.generator, old(fandango.calls));
        // a bridge failure stops the cycle before any draw, evaluation or mutation
        && (gen.Err? ==> r == Fail(BridgeError(gen.error)) && trace == [])
        && (gen.Ok? ==> CycleDone(gen.value, draw, minIterations, maxIterations, r, trace, mutate, evaluate, postExec))
    {
      var gen := fandango.NextInput();
      if gen.Err? {
        return Fail(BridgeError(gen.error)), [];
      }
      r, trace := Cycle(gen.value, draw, mutate, evaluate, postExec);
    }

    /** The rest of `perform`, once the seed is in hand. */
    method Cycle(seed: Bytes, draw: nat, mutate: Mutator, evaluate: Evaluator, postExec: PostExecHook)
      returns (r: Outcome<Error>, ghost trace: seq<Event>)
      requires minIterations <= draw <= maxIterations
      ensures CycleDone(seed, draw, minIterations, maxIterations, r, trace, mutate, evaluate, postExec)
    {
      // Run the unchanged input
      var first := evaluate(0, seed);
      trace := SeedStep(seed, draw, mutate, evaluate, postExec);
      if first.Err? {
        return Fail(first.error), trace;
      }
      var hook := postExec(0, first.value);
      trace := SeedPostExec(seed, draw, first.value, minIterations, maxIterations, mutate, evaluate, postExec);
      if hook.Fail? {
        return hook, trace;
      }
      r, trace := Iterate(seed, draw, trace, mutate, evaluate, postExec);
    }

    /** The mutation loop of `perform`, after the seed was evaluated. */
    method Iterate(seed: Bytes, draw: nat, ghost start: seq<Event>,
                   mutate: Mutator, evaluate: Evaluator, postExec: PostExecHook)
      returns (r: Outcome<Error>, ghost trace: seq<Event>)
      requires minIterations <= draw <= maxIterations
      requires LoopDone(start, seed, draw, 0, 1, mutate, evaluate, postExec)
      ensures CycleDone(seed, draw, minIterations, maxIterations, r, trace, mutate, evaluate, postExec)
    {
      var iterations := 1 + draw;
      trace := start;
      var evaluations := 1;

      for i := 0 to iterations
        invariant LoopDone(trace, seed, draw, i, evaluations, mutate, evaluate, postExec)
      {
        var cloned := seed;
        var mutation := mutate(i, cloned);
        if mutation.Err? {
          trace := FailedStep(trace, Mutate(i, cloned), mutation.error, seed, draw, i, evaluations,
                              minIterations, maxIterations, mutate, evaluate, postExec);
          return Fail(mutation.error), trace;
        }
        if mutation.value.0 == Skipped {
          trace := SkippedStep(trace, seed, draw, i, evaluations, mutate, evaluate, postExec);
          continue;
        }
        cloned := mutation.value.1;
        trace := MutatedStep(trace, seed, draw, i, evaluations, cloned, mutate, evaluate, postExec);
        var evaluated := evaluate(evaluations, cloned);
        trace := EvaluateStep(trace, seed, draw, i, evaluations, cloned, mutate, evaluate, postExec);
        if evaluated.Err? {
          trace := FailedEvaluation(trace, seed, draw, i, evaluations, cloned, evaluated.error,
                                    minIterations, maxIterations, mutate, evaluate, postExec);
          return Fail(evaluated.error), trace;
        }
        var hook := postExec(evaluations, evaluated.value);
        if hook.Fail? {
          trace := FailedPostExec(trace, seed, draw, i, evaluations, cloned, evaluated.value, hook.error,
                                  minIterations, maxIterations, mutate, evaluate, postExec);
          return hook, trace;
        }
        trace := PostExecStep(trace, seed, draw, i, evaluations, cloned, evaluated.value, mutate, evaluate, postExec);
        evaluations := evaluations + 1;
      }
      LoopFinished(trace, seed, draw, iterations, evaluations, minIterations, maxIterations, mutate, evaluate, postExec);
      r := Pass;
    }

    /** `should_restart`: delegates to the retry helper under the stage's
        name with at most three retries. */
    method ShouldRestart(book: RetryBook, current: Option<CorpusId>) returns (r: Result<bool, Error>)
      modifies book
      ensures r == RetryCheck(old(book.records), STAGE_NAME, MAX_RETRIES, current).0
      ensures book.records == RetryCheck(old(book.records), STAGE_NAME, MAX_RETRIES, current).1
    {
      r := book.ShouldRestart(Name(), MAX_RETRIES, current);
    }

    /** `clear_progress`: resets the retry counter under the same name. */
    method ClearProgress(book: RetryBook) returns (r: Outcome<Error>)
      modifies book
      ensures r == Pass
      ensures book.records == ClearRecord(old(book.records), STAGE_NAME)
    {
      r := book.ClearProgress(Name());
    }
  }

  // ---------------------------------------------------------------------
  // Restart bookkeeping (a reference model of LibAFL's retry-count helper)

  /** Per stage name: the tries left (`None` = not counting) and the corpus
      entries on which the stage is given up. */
  datatype RetryRecord = RetryRecord(triesRemaining: Option<nat>, skipped: set<CorpusId>)

  /** One `should_restart` call: the answer and the new records. */
  function RetryCheck(records: map<string, RetryRecord>, name: string, maxRetries: nat,
                      current: Option<CorpusId>): (out: (Result<bool, Error>, map<string, RetryRecord>))
    ensures current.None? ==> out.0.Err? && out.1 == records
    ensures out.0.Ok? ==> name in out.1 && current.Some?
    ensures out.0 == Ok(true) ==> (out.1[name].triesRemaining.Some?
                                   && 0 < out.1[name].triesRemaining.value < TriesLeft(records, name, maxRetries))
    ensures forall n :: n in records && n != name ==> n in out.1 && out.1[n] == records[n]
  {
    match current
    case None => (Err(IllegalState("No current_corpus_id set in State")), records)
    case Some(id) =>
      var rec := if name in records then records[name] else RetryRecord(Some(maxRetries + 1), {});
      if id in rec.skipped then (Ok(false), records[name := rec])
      else
        var left := match rec.triesRemaining case Some(t) => t case None => maxRetries + 1;
        var tries := if left == 0 then 0 else left - 1;
        if tries == 0 then (Ok(false), records[name := RetryRecord(None, rec.skipped + {id})])
        else (Ok(true), records[name := RetryRecord(Some(tries), rec.skipped)])
  }

  function ClearRecord(records: map<string, RetryRecord>, name: string): (r: map<string, RetryRecord>)
    ensures name in records ==> name in r && r[name].triesRemaining.None? && r[name].skipped == records[name].skipped
    ensures forall n :: n != name ==> (n in r <==> n in records) && (n in r ==> r[n] == records[n])
  {
    if name in records then records[name := records[name].(triesRemaining := None)] else records
  }

  /** The named metadata of the fuzzer state that the helper keeps. */
  class RetryBook {
    var records: map<string, RetryRecord>

    constructor ()
      ensures records == map[]
    {
      records := map[];
    }

    method ShouldRestart(name: string, maxRetries: nat, current: Option<CorpusId>) returns (r: Result<bool, Error>)
      modifies this
      ensures (r, records) == RetryCheck(old(records), name, maxRetries, current)
    {
      var out := RetryCheck(records, name, maxRetries, current);
      r := out.0;
      records := out.1;
    }

    method ClearProgress(name: string) returns (r: Outcome<Error>)
      modifies this
      ensures r == Pass && records == ClearRecord(old(records), name)
    {
      records := ClearRecord(records, name);
      r := Pass;
    }
  }

  /** The answers of `n` consecutive `should_restart` calls on one corpus
      entry without a `clear_progress` in between. */
  function Answers(records: map<string, RetryRecord>, name: string, maxRetries: nat,
                   id: CorpusId, n: nat): (a: seq<Result<bool, Error>>)
    ensures |a| == n
    decreases n
  {
    if n == 0 then []
    else
      var out := RetryCheck(records, name, maxRetries, Some(id));
      [out.0] + Answers(out.1, name, maxRetries, id, n - 1)
  }

  /** The tries left for `name` as the helper reads them. */
  function TriesLeft(records: map<string, RetryRecord>, name: string, maxRetries: nat): nat {
    if name in records && records[name].triesRemaining.Some? then records[name].triesRemaining.value
    else maxRetries + 1
  }

  predicate GivenUp(records: map<string, RetryRecord>, name: string, id: CorpusId) {
    name in records && id in records[name].skipped
  }

  lemma {:induction false} CountdownAnswers(records: map<string, RetryRecord>, name: string,
                                            maxRetries: nat, id: CorpusId, n: nat)
    requires n >= 1 && TriesLeft(records, name, maxRetries) == n
    requires !GivenUp(records, name, id)
    decreases n
    ensures forall i :: 0 <= i < n - 1 ==> Answers(records, name, maxRetries, id, n)[i] == Ok(true)
    ensures Answers(records, name, maxRetries, id, n)[n - 1] == Ok(false)
  {
    var out := RetryCheck(records, name, maxRetries, Some(id));
    if n > 1 {
      assert out.1[name].triesRemaining == Some(n - 1);
      CountdownAnswers(out.1, name, maxRetries, id, n - 1);
    }
  }

  /** Starting fresh (or after `clear_progress`), the stage may be entered
      `maxRetries + 1` times: every answer is `true` except the last, after
      `maxRetries` restarts, which is `false`. */
  lemma RetriesCapped(records: map<string, RetryRecord>, name: string, maxRetries: nat, id: CorpusId, n: nat)
    requires n == maxRetries + 1
    requires name !in records || (records[name].triesRemaining.None? && id !in records[name].skipped)
    ensures forall i :: 0 <= i < maxRetries ==> Answers(records, name, maxRetries, id, n)[i] == Ok(true)
    ensures Answers(records, name, maxRetries, id, n)[maxRetries] == Ok(false)
  {
    CountdownAnswers(records, name, maxRetries, id, n);
  }

  /** With the stage's own cap, the fourth consecutive entry is refused. */
  lemma StageRetriesCapped(records: map<string, RetryRecord>, id: CorpusId)
    requires STAGE_NAME !in records
    ensures Answers(records, STAGE_NAME, MAX_RETRIES, id, 4) == [Ok(true), Ok(true), Ok(true), Ok(false)]
  {
    RetriesCapped(records, STAGE_NAME, MAX_RETRIES, id, 4);
  }
}
