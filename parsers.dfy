/** `Parsed` from lss/parsers.py: a document whose lines and masks are
    simplified in place, one after the other, in document order. The
    simplifiers of lss/utils.py are not part of this model; they are passed in
    as a function of the points and the tolerance. */
module Parsers {
  import opened Outcomes
  import opened Text
  import opened PointText
  import opened Dialects

  /** `simplify_line` (with whatever `algo` the caller chose) or
      `simplify_mask`: points and a tolerance in, points out. */
  type Simplifier = (PointList, real) -> PointList

  /** A tolerance derived from a reference height: the ratio times the height. */
  function Scaled(ratio: real, height: real): real {
    ratio * height
  }

  // ===========================================================================
  // The batch pass shared by simplify_lines and simplify_masks

  /** One iteration of a batch pass: an element and the tolerance kept from
      the previous iterations (None before any) in; the rewritten element
      and the tolerance this iteration used out, or the exception it raised. */
  type Step<!T> = (T, Option<real>) -> Result<(T, real)>

  /** The state of a batch pass after some elements: the elements (rewritten
      ones first, then untouched ones), the tolerance kept between
      iterations, the tolerance each rewritten element was simplified with,
      and whether an exception has ended the pass. */
  datatype Pass<T> = Pass(items: seq<T>, cache: Option<real>, used: seq<real>, outcome: Outcome)

  /** The pass after its `n`-th element's step: an exception ends it with the
      items as they are; otherwise element `n` is replaced, and the tolerance
      the step used is kept and recorded. */
  function Advance<T>(p: Pass<T>, n: nat, step: Result<(T, real)>): (r: Pass<T>)
    requires n < |p.items|
    ensures |r.items| == |p.items|
  {
    if step.Err? then p.(outcome := Failed(step.error))
    else Pass(p.items[n := step.value.0], Some(step.value.1), p.used + [step.value.1], Done)
  }

  /** The `for` loop of a batch pass over the first `n` elements, starting
      with the tolerance the caller supplied. */
  function Run<T>(items: seq<T>, n: nat, start: Option<real>, step: Step<T>): (p: Pass<T>)
    requires n <= |items|
    ensures |p.items| == |items| && |p.used| <= n
    ensures p.outcome.Done? ==> |p.used| == n
  {
    if n == 0 then Pass(items, start, [], Done)
    else
      var p := Run(items, n - 1, start, step);
      if p.outcome.Failed? then p else Advance(p, n - 1, step(items[n - 1], p.cache))
  }

  /** One more element: a pass that has not failed takes its next step. */
  lemma RunNext<T>(items: seq<T>, n: nat, start: Option<real>, step: Step<T>)
    requires n < |items| && Run(items, n, start, step).outcome.Done?
    ensures Run(items, n + 1, start, step)
              == Advance(Run(items, n, start, step), n, step(items[n], Run(items, n, start, step).cache))
  {
  }

  /** A pass gets through `n` elements exactly when it got through `n - 1`
      and the `n`-th step went through; it then keeps that step's tolerance. */
  lemma RunDone<T>(items: seq<T>, n: nat, start: Option<real>, step: Step<T>)
    requires 0 < n <= |items|
    ensures Run(items, n, start, step).outcome.Done? <==>
              && Run(items, n - 1, start, step).outcome.Done?
              && step(items[n - 1], Run(items, n - 1, start, step).cache).Ok?
    ensures Run(items, n, start, step).outcome.Done? ==>
              Run(items, n, start, step).cache == Some(step(items[n - 1], Run(items, n - 1, start, step).cache).value.1)
  {
  }

  /** The tolerance in force before the `k`-th element: the supplied one for
      the first element, the previous element's afterwards. */
  function Previous(start: Option<real>, used: seq<real>, k: nat): Option<real>
    requires k <= |used|
  {
    if k == 0 then start else Some(used[k - 1])
  }

  /** The tolerance a pass keeps is the last one it used, or the supplied
      one when it has used none. */
  lemma {:induction false} RunKeepsLastTolerance<T>(items: seq<T>, n: nat, start: Option<real>, step: Step<T>)
    requires n <= |items|
    ensures Run(items, n, start, step).cache
              == Previous(start, Run(items, n, start, step).used, |Run(items, n, start, step).used|)
  {
    if n > 0 {
      RunKeepsLastTolerance(items, n - 1, start, step);
      var q := Run(items, n - 1, start, step);
      if q.outcome.Done? {
        assert Run(items, n, start, step) == Advance(q, n - 1, step(items[n - 1], q.cache));
      }
    }
  }

  /** What a pass has done: each rewritten element is its step's result when
      given the tolerance in force before it. */
  lemma {:induction false} RunRecordsSteps<T>(items: seq<T>, n: nat, start: Option<real>, step: Step<T>, k: nat)
    requires n <= |items|
    requires k < |Run(items, n, start, step).used|
    ensures step(items[k], Previous(start, Run(items, n, start, step).used, k))
              == Ok((Run(items, n, start, step).items[k], Run(items, n, start, step).used[k]))
  {
    var q := Run(items, n - 1, start, step);
    var p := Run(items, n, start, step);
    if q.outcome.Failed? {
      assert p == q;
      RunRecordsSteps(items, n - 1, start, step, k);
    } else {
      var r := step(items[n - 1], q.cache);
      assert p == Advance(q, n - 1, r);
      if r.Err? {
        assert p.items == q.items && p.used == q.used;
        RunRecordsSteps(items, n - 1, start, step, k);
      } else if k < n - 1 {
        RunRecordsSteps(items, n - 1, start, step, k);
        assert Previous(start, p.used, k) == Previous(start, q.used, k);
        assert p.used[k] == q.used[k] && p.items[k] == q.items[k];
      } else {
        RunKeepsLastTolerance(items, n - 1, start, step);
        assert Previous(start, p.used, k) == q.cache;
      }
    }
  }

  /** A pass leaves the elements after the last rewritten one as they were. */
  lemma {:induction false} RunLeavesRestUntouched<T>(items: seq<T>, n: nat, start: Option<real>, step: Step<T>)
    requires n <= |items|
    ensures var p := Run(items, n, start, step);
            forall k | |p.used| <= k < |items| :: p.items[k] == items[k]
  {
    if n > 0 {
      RunLeavesRestUntouched(items, n - 1, start, step);
      var q := Run(items, n - 1, start, step);
      if q.outcome.Done? {
        assert Run(items, n, start, step) == Advance(q, n - 1, step(items[n - 1], q.cache));
      }
    }
  }

  /** Once an exception has ended the pass, later elements change nothing. */
  lemma {:induction false} RunStopsAtFailure<T>(items: seq<T>, n: nat, m: nat, start: Option<real>, step: Step<T>)
    requires n <= m <= |items|
    requires Run(items, n, start, step).outcome.Failed?
    ensures Run(items, m, start, step) == Run(items, n, start, step)
    decreases m
  {
    if m > n {
      RunStopsAtFailure(items, n, m - 1, start, step);
    }
  }

  /** Where a pass fails: at the first element not rewritten, with the
      exception that element's own step raises. */
  lemma {:induction false} RunFailsAtFirstUnwritten<T>(items: seq<T>, n: nat, start: Option<real>, step: Step<T>)
    requires n <= |items|
    ensures var p := Run(items, n, start, step);
            p.outcome.Failed? ==> |p.used| < n && step(items[|p.used|], p.cache) == Err(p.outcome.error)
  {
    if n > 0 {
      RunFailsAtFirstUnwritten(items, n - 1, start, step);
    }
  }

  /** The tolerance a pass uses for its `k`-th element when every earlier
      element went through and `choose` picks each tolerance from the one
      kept before it; or the exception the first failing choice raises. */
  function Chain<T>(items: seq<T>, start: Option<real>, choose: (T, Option<real>) -> Result<real>, k: nat)
    : Result<real>
    requires k < |items|
  {
    if k == 0 then choose(items[0], start)
    else
      var previous :- Chain(items, start, choose, k - 1);
      choose(items[k], Some(previous))
  }

  /** Element `k` has its chained tolerance and goes through `rewrite` with it. */
  predicate ChainOk<T>(items: seq<T>, start: Option<real>,
                       choose: (T, Option<real>) -> Result<real>, rewrite: (T, real) -> bool, k: nat)
    requires k < |items|
  {
    Chain(items, start, choose, k).Ok? && rewrite(items[k], Chain(items, start, choose, k).value)
  }

  /** Each of the first `n` elements, in order, has its chained tolerance
      and goes through `rewrite` with it. */
  predicate ChainSucceeds<T>(items: seq<T>, n: nat, start: Option<real>,
                             choose: (T, Option<real>) -> Result<real>, rewrite: (T, real) -> bool)
    requires n <= |items|
  {
    n == 0 || (ChainSucceeds(items, n - 1, start, choose, rewrite) && ChainOk(items, start, choose, rewrite, n - 1))
  }

  /** A pass whose step goes through exactly when its chosen tolerance
      exists and the element can be rewritten with it gets through `n`
      elements exactly when the chain does, and then keeps the last
      chained tolerance. */
  lemma {:induction false} RunFollowsChain<T>(items: seq<T>, n: nat, start: Option<real>, step: Step<T>,
                                              choose: (T, Option<real>) -> Result<real>, rewrite: (T, real) -> bool)
    requires n <= |items|
    requires forall x, c :: step(x, c).Ok? <==> choose(x, c).Ok? && rewrite(x, choose(x, c).value)
    requires forall x, c :: step(x, c).Ok? ==> step(x, c).value.1 == choose(x, c).value
    ensures Run(items, n, start, step).outcome.Done? <==> ChainSucceeds(items, n, start, choose, rewrite)
    ensures Run(items, n, start, step).outcome.Done? && n > 0 ==>
              && Chain(items, start, choose, n - 1).Ok?
              && Run(items, n, start, step).cache == Some(Chain(items, start, choose, n - 1).value)
  {
    if n > 0 {
      RunFollowsChain(items, n - 1, start, step, choose, rewrite);
      RunDone(items, n, start, step);
      var q := Run(items, n - 1, start, step);
      if q.outcome.Done? {
        assert n == 1 ==> q.cache == start;
        assert choose(items[n - 1], q.cache) == Chain(items, start, choose, n - 1);
      }
    }
  }

  /** The chain succeeds exactly when every element, each on its own, has
      its chained tolerance and can be rewritten with it. */
  lemma {:induction false} ChainSucceedsEach<T>(items: seq<T>, n: nat, start: Option<real>,
                                                choose: (T, Option<real>) -> Result<real>, rewrite: (T, real) -> bool)
    requires n <= |items|
    ensures ChainSucceeds(items, n, start, choose, rewrite) <==>
              forall k | 0 <= k < n :: ChainOk(items, start, choose, rewrite, k)
  {
    if n > 0 {
      ChainSucceedsEach(items, n - 1, start, choose, rewrite);
    }
  }

  // ===========================================================================
  // simplify_lines

  /** The epsilon one iteration of `simplify_lines` uses: the one kept in
      `kwargs`, or else the ratio times this line's height. */
  function StepEpsilon(line: TextLine, ratio: real, cached: Option<real>): (r: Result<real>)
    ensures cached.Some? ==> r == Ok(cached.value)
    ensures cached.None? ==> (r.Ok? <==> LineHeight(line).Ok?)
    ensures cached.None? && r.Ok? ==> r.value == Scaled(ratio, LineHeight(line).value)
    ensures cached.None? && r.Err? ==> r.error == LineHeight(line).error
  {
    if cached.Some? then Ok(cached.value)
    else
      var h := LineHeight(line);
      if h.Err? then Err(h.error) else Ok(Scaled(ratio, h.value))
  }

  /** One iteration of `simplify_lines`: parse the baseline, take the epsilon
      (deriving it when none is kept), simplify, write back. */
  function LineStep(line: TextLine, ratio: real, cached: Option<real>, simplify: Simplifier)
    : (r: Result<(TextLine, real)>)
    ensures LineParse(line).Err? ==> r == Err(LineParse(line).error)
    ensures LineParse(line).Ok? && StepEpsilon(line, ratio, cached).Err? ==>
              r == Err(StepEpsilon(line, ratio, cached).error)
    ensures r.Ok? ==> HasBaseline(line) && DialectOf(r.value.0) == DialectOf(line)
    ensures r.Ok? && cached.Some? ==> r.value.1 == cached.value
    ensures LineParse(line).Ok? && StepEpsilon(line, ratio, cached).Ok? ==>
              (r.Ok? <==> IsPlanar(simplify(LineParse(line).value, StepEpsilon(line, ratio, cached).value)))
    ensures LineParse(line).Ok? && StepEpsilon(line, ratio, cached).Ok? && r.Err? ==> r.error == IndexError
  {
    var orig :- LineParse(line);
    var epsilon :- StepEpsilon(line, ratio, cached);
    var line' :- LineWrite(line, simplify(orig, epsilon));
    Ok((line', epsilon))
  }

  /** The iteration of `simplify_lines` as a step of the batch pass. */
  function LineSteps(ratio: real, simplify: Simplifier): Step<TextLine> {
    (line, cached) => LineStep(line, ratio, cached, simplify)
  }

  /** `simplify_lines` over the first `n` lines, starting with the epsilon
      the caller supplied (None when `kwargs` has no "epsilon"). */
  function RunLines(lines: seq<TextLine>, n: nat, ratio: real, epsilon: Option<real>, simplify: Simplifier)
    : Pass<TextLine>
    requires n <= |lines|
  {
    Run(lines, n, epsilon, LineSteps(ratio, simplify))
  }

  /** A line simplified with a given epsilon: its baseline parsed,
      simplified and written back. This is `LineStep` with the epsilon
      settled, so that lemmas about a whole pass can say what happened to
      each line without the caching. */
  function Rewrite(line: TextLine, epsilon: real, simplify: Simplifier): (r: Result<TextLine>)
    ensures r.Ok? <==> LineParse(line).Ok? && IsPlanar(simplify(LineParse(line).value, epsilon))
  {
    var orig :- LineParse(line);
    LineWrite(line, simplify(orig, epsilon))
  }

  /** A successful iteration rewrites its line with the epsilon it reports. */
  lemma LineStepRewrites(line: TextLine, ratio: real, cached: Option<real>, simplify: Simplifier)
    requires LineStep(line, ratio, cached, simplify).Ok?
    ensures StepEpsilon(line, ratio, cached) == Ok(LineStep(line, ratio, cached, simplify).value.1)
    ensures Rewrite(line, LineStep(line, ratio, cached, simplify).value.1, simplify)
              == Ok(LineStep(line, ratio, cached, simplify).value.0)
  {
  }

  /** The epsilon every line of a pass is simplified with: the one supplied,
      or else the ratio times the height of the FIRST line. */
  function BatchEpsilon(lines: seq<TextLine>, ratio: real, epsilon: Option<real>): Result<real>
    requires lines != []
  {
    StepEpsilon(lines[0], ratio, epsilon)
  }

  /** The epsilon is fixed once: every line rewritten so far was simplified
      with the batch epsilon, which the pass keeps from then on. */
  lemma RunLinesUsesOneEpsilon(lines: seq<TextLine>, n: nat, ratio: real,
                               epsilon: Option<real>, simplify: Simplifier)
    requires n <= |lines|
    ensures var p := RunLines(lines, n, ratio, epsilon, simplify);
            p.used == [] ==> p.cache == epsilon
    ensures var p := RunLines(lines, n, ratio, epsilon, simplify);
            p.used != [] ==> && BatchEpsilon(lines, ratio, epsilon).Ok?
                             && p.cache == Some(BatchEpsilon(lines, ratio, epsilon).value)
    ensures var p := RunLines(lines, n, ratio, epsilon, simplify);
            forall k | 0 <= k < |p.used| ::
              && p.used[k] == BatchEpsilon(lines, ratio, epsilon).value
              && Rewrite(lines[k], p.used[k], simplify) == Ok(p.items[k])
  {
    var step := LineSteps(ratio, simplify);
    var p := Run(lines, n, epsilon, step);
    RunKeepsLastTolerance(lines, n, epsilon, step);
    forall k | 0 <= k < |p.used|
      ensures StepEpsilon(lines[k], ratio, Previous(epsilon, p.used, k)) == Ok(p.used[k])
      ensures Rewrite(lines[k], p.used[k], simplify) == Ok(p.items[k])
    {
      RunRecordsSteps(lines, n, epsilon, step, k);
      assert step(lines[k], Previous(epsilon, p.used, k)) == LineStep(lines[k], ratio, Previous(epsilon, p.used, k), simplify);
      LineStepRewrites(lines[k], ratio, Previous(epsilon, p.used, k), simplify);
    }
    if p.used != [] {
      EpsilonKept(lines, ratio, epsilon, p.used, |p.used| - 1);
      forall k | 0 <= k < |p.used| ensures p.used[k] == p.used[0] {
        EpsilonKept(lines, ratio, epsilon, p.used, k);
      }
    }
  }

  /** Helper for RunLinesUsesOneEpsilon: every line after the first reuses
      the first line's epsilon. */
  lemma {:induction false} EpsilonKept(lines: seq<TextLine>, ratio: real, epsilon: Option<real>,
                                       used: seq<real>, k: nat)
    requires |used| <= |lines|
    requires forall i | 0 <= i < |used| :: StepEpsilon(lines[i], ratio, Previous(epsilon, used, i)) == Ok(used[i])
    requires k < |used|
    ensures lines != [] && BatchEpsilon(lines, ratio, epsilon) == Ok(used[k])
  {
    if k > 0 {
      EpsilonKept(lines, ratio, epsilon, used, k - 1);
      assert Previous(epsilon, used, k) == Some(used[k - 1]);
      assert StepEpsilon(lines[k], ratio, Some(used[k - 1])) == Ok(used[k]);
    } else {
      assert StepEpsilon(lines[0], ratio, epsilon) == Ok(used[0]);
    }
  }

  /** An iteration of `simplify_lines` goes through exactly when it has its
      epsilon and the line, simplified with that epsilon, can be rewritten. */
  lemma LineStepSucceeds(line: TextLine, ratio: real, cached: Option<real>, simplify: Simplifier)
    ensures LineStep(line, ratio, cached, simplify).Ok? <==>
              && StepEpsilon(line, ratio, cached).Ok?
              && Rewrite(line, StepEpsilon(line, ratio, cached).value, simplify).Ok?
  {
  }

  /** The epsilon rule of `simplify_lines` as a choice from the kept epsilon. */
  function LineEpsilons(ratio: real): (TextLine, Option<real>) -> Result<real> {
    (line, kept) => StepEpsilon(line, ratio, kept)
  }

  /** A line's rewrite with a settled epsilon goes through. */
  function LineRewrites(simplify: Simplifier): (TextLine, real) -> bool {
    (line, epsilon) => Rewrite(line, epsilon, simplify).Ok?
  }

  /** Helper for RunLinesSucceeds: chained from line to line, the epsilon
      rule gives the batch epsilon every time. */
  lemma {:induction false} EpsilonChainIsBatch(lines: seq<TextLine>, ratio: real, epsilon: Option<real>, k: nat)
    requires k < |lines|
    ensures Chain(lines, epsilon, LineEpsilons(ratio), k) == BatchEpsilon(lines, ratio, epsilon)
  {
    if k > 0 {
      EpsilonChainIsBatch(lines, ratio, epsilon, k - 1);
      var previous := Chain(lines, epsilon, LineEpsilons(ratio), k - 1);
      if previous.Ok? {
        assert LineEpsilons(ratio)(lines[k], Some(previous.value)) == StepEpsilon(lines[k], ratio, Some(previous.value));
      }
    }
  }

  /** The iteration of `simplify_lines` is an epsilon choice followed by a rewrite. */
  lemma LineStepsChoose(ratio: real, simplify: Simplifier)
    ensures forall x, c :: LineSteps(ratio, simplify)(x, c).Ok? <==>
              LineEpsilons(ratio)(x, c).Ok? && LineRewrites(simplify)(x, LineEpsilons(ratio)(x, c).value)
    ensures forall x, c :: LineSteps(ratio, simplify)(x, c).Ok? ==>
              LineSteps(ratio, simplify)(x, c).value.1 == LineEpsilons(ratio)(x, c).value
  {
    forall x, c
      ensures LineSteps(ratio, simplify)(x, c).Ok? <==>
                LineEpsilons(ratio)(x, c).Ok? && LineRewrites(simplify)(x, LineEpsilons(ratio)(x, c).value)
    {
      LineStepSucceeds(x, ratio, c, simplify);
    }
    forall x, c | LineSteps(ratio, simplify)(x, c).Ok?
      ensures LineSteps(ratio, simplify)(x, c).value.1 == LineEpsilons(ratio)(x, c).value
    {
      LineStepRewrites(x, ratio, c, simplify);
    }
  }

  /** When `simplify_lines` gets through the first `n` lines: exactly when
      the batch epsilon can be had and every one of those lines parses and
      simplifies, with it, to points that all have a y. */
  lemma RunLinesSucceeds(lines: seq<TextLine>, n: nat, ratio: real,
                         epsilon: Option<real>, simplify: Simplifier)
    requires n <= |lines|
    ensures RunLines(lines, n, ratio, epsilon, simplify).outcome.Done? <==>
              || n == 0
              || (&& BatchEpsilon(lines, ratio, epsilon).Ok?
                  && forall k | 0 <= k < n :: Rewrite(lines[k], BatchEpsilon(lines, ratio, epsilon).value, simplify).Ok?)
  {
    var choose, rewrite := LineEpsilons(ratio), LineRewrites(simplify);
    LineStepsChoose(ratio, simplify);
    RunFollowsChain(lines, n, epsilon, LineSteps(ratio, simplify), choose, rewrite);
    ChainSucceedsEach(lines, n, epsilon, choose, rewrite);
    assert RunLines(lines, n, ratio, epsilon, simplify) == Run(lines, n, epsilon, LineSteps(ratio, simplify));
    if n > 0 {
      var batch := BatchEpsilon(lines, ratio, epsilon);
      forall k | 0 <= k < n ensures Chain(lines, epsilon, choose, k) == batch {
        EpsilonChainIsBatch(lines, ratio, epsilon, k);
      }
      if ChainSucceeds(lines, n, epsilon, choose, rewrite) {
        assert ChainOk(lines, epsilon, choose, rewrite, 0);
        forall k | 0 <= k < n ensures Rewrite(lines[k], batch.value, simplify).Ok? {
          assert ChainOk(lines, epsilon, choose, rewrite, k);
        }
      } else {
        var k :| 0 <= k < n && !ChainOk(lines, epsilon, choose, rewrite, k);
        assert !(batch.Ok? && Rewrite(lines[k], batch.value, simplify).Ok?);
      }
    }
  }

  /** A pass keeps each line in its dialect. */
  lemma RunLinesKeepsDialect(lines: seq<TextLine>, n: nat, ratio: real, epsilon: Option<real>, simplify: Simplifier)
    requires n <= |lines|
    ensures forall k | 0 <= k < |lines| ::
              DialectOf(RunLines(lines, n, ratio, epsilon, simplify).items[k]) == DialectOf(lines[k])
  {
    RunLinesUsesOneEpsilon(lines, n, ratio, epsilon, simplify);
    RunLeavesRestUntouched(lines, n, epsilon, LineSteps(ratio, simplify));
  }

  /** A document of one dialect stays of that dialect. */
  lemma RunLinesKeepsAllOf(lines: seq<TextLine>, n: nat, ratio: real, epsilon: Option<real>,
                           simplify: Simplifier, dialect: Dialect)
    requires n <= |lines| && AllOf(lines, dialect)
    ensures AllOf(RunLines(lines, n, ratio, epsilon, simplify).items, dialect)
  {
    RunLinesKeepsDialect(lines, n, ratio, epsilon, simplify);
  }

  /** Without a supplied epsilon, every line is simplified with the ratio
      times the height of the first line, whatever its own height. */
  lemma FirstLineFixesEpsilon(lines: seq<TextLine>, ratio: real, simplify: Simplifier)
    requires lines != []
    requires RunLines(lines, |lines|, ratio, None, simplify).outcome.Done?
    ensures LineHeight(lines[0]).Ok?
    ensures forall k | 0 <= k < |lines| ::
              Rewrite(lines[k], Scaled(ratio, LineHeight(lines[0]).value), simplify)
                == Ok(RunLines(lines, |lines|, ratio, None, simplify).items[k])
  {
    RunLinesUsesOneEpsilon(lines, |lines|, ratio, None, simplify);
  }

  /** A supplied epsilon is used for every line. */
  lemma SuppliedEpsilonForAllLines(lines: seq<TextLine>, ratio: real, epsilon: real, simplify: Simplifier)
    requires RunLines(lines, |lines|, ratio, Some(epsilon), simplify).outcome.Done?
    ensures forall k | 0 <= k < |lines| ::
              Rewrite(lines[k], epsilon, simplify)
                == Ok(RunLines(lines, |lines|, ratio, Some(epsilon), simplify).items[k])
  {
    if lines != [] {
      RunLinesUsesOneEpsilon(lines, |lines|, ratio, Some(epsilon), simplify);
    }
  }

  // ===========================================================================
  // simplify_masks

  /** `not tolerance`: None and zero are falsy. */
  predicate Falsy(tolerance: Option<real>) {
    tolerance.None? || tolerance.value == 0.0
  }

  /** The tolerance one iteration of `simplify_masks` uses: the kept one,
      unless it is falsy, in which case the ratio times this mask's height. */
  function StepTolerance(mask: Element, ratio: real, tolerance: Option<real>): (r: Result<real>)
    ensures !Falsy(tolerance) ==> r == Ok(tolerance.value)
    ensures Falsy(tolerance) ==> (r.Ok? <==> MaskHeight(mask).Ok?)
    ensures Falsy(tolerance) && r.Ok? ==> r.value == Scaled(ratio, MaskHeight(mask).value)
    ensures Falsy(tolerance) && r.Err? ==> r.error == MaskHeight(mask).error
  {
    if Falsy(tolerance) then
      var h := MaskHeight(mask);
      if h.Err? then Err(h.error) else Ok(Scaled(ratio, h.value))
    else Ok(tolerance.value)
  }

  /** One iteration of `simplify_masks`: parse the mask, take the tolerance,
      simplify, log the reduction (a division by the original point count,
      which raises on an empty mask), write back. */
  function MaskStep(mask: Element, ratio: real, tolerance: Option<real>, simplify: Simplifier)
    : (r: Result<(Element, real)>)
    ensures MaskParse(mask).Err? ==> r == Err(MaskParse(mask).error)
    ensures MaskParse(mask).Ok? && StepTolerance(mask, ratio, tolerance).Err? ==>
              r == Err(StepTolerance(mask, ratio, tolerance).error)
    ensures MaskParse(mask) == Ok([]) && StepTolerance(mask, ratio, tolerance).Ok? ==>
              r == Err(ZeroDivisionError)
    ensures r.Ok? ==> r.value.0.points.Some?
    ensures r.Ok? && !Falsy(tolerance) ==> r.value.1 == tolerance.value
    ensures MaskParse(mask).Ok? && MaskParse(mask).value != [] && StepTolerance(mask, ratio, tolerance).Ok? ==>
              (r.Ok? <==> IsPlanar(simplify(MaskParse(mask).value, StepTolerance(mask, ratio, tolerance).value)))
    ensures MaskParse(mask).Ok? && MaskParse(mask).value != [] && StepTolerance(mask, ratio, tolerance).Ok? && r.Err? ==>
              r.error == IndexError
  {
    var coords :- MaskParse(mask);
    var t :- StepTolerance(mask, ratio, tolerance);
    var newCoords := simplify(coords, t);
    if |coords| == 0 then Err(ZeroDivisionError)
    else
      var mask' :- MaskWrite(mask, newCoords);
      Ok((mask', t))
  }

  /** The iteration of `simplify_masks` as a step of the batch pass. */
  function MaskSteps(ratio: real, simplify: Simplifier): Step<Element> {
    (mask, tolerance) => MaskStep(mask, ratio, tolerance, simplify)
  }

  /** `simplify_masks` over the first `n` masks, starting with the tolerance
      the caller supplied. */
  function RunMasks(masks: seq<Element>, n: nat, ratio: real, tolerance: Option<real>, simplify: Simplifier)
    : Pass<Element>
    requires n <= |masks|
  {
    Run(masks, n, tolerance, MaskSteps(ratio, simplify))
  }

  /** A mask simplified with a given tolerance: parsed, simplified, and
      written back (an empty mask aborts in the log message). This is
      `MaskStep` with the tolerance settled, for the lemmas about a pass. */
  function RewriteMask(mask: Element, tolerance: real, simplify: Simplifier): (r: Result<Element>)
    ensures r.Ok? <==> && MaskParse(mask).Ok? && MaskParse(mask).value != []
                       && IsPlanar(simplify(MaskParse(mask).value, tolerance))
  {
    var coords :- MaskParse(mask);
    if |coords| == 0 then Err(ZeroDivisionError) else MaskWrite(mask, simplify(coords, tolerance))
  }

  /** A successful iteration rewrites its mask with the tolerance it reports. */
  lemma MaskStepRewrites(mask: Element, ratio: real, tolerance: Option<real>, simplify: Simplifier)
    requires MaskStep(mask, ratio, tolerance, simplify).Ok?
    ensures StepTolerance(mask, ratio, tolerance) == Ok(MaskStep(mask, ratio, tolerance, simplify).value.1)
    ensures RewriteMask(mask, MaskStep(mask, ratio, tolerance, simplify).value.1, simplify)
              == Ok(MaskStep(mask, ratio, tolerance, simplify).value.0)
  {
  }

  /** The tolerance rule: every rewritten mask used the tolerance computed
      from the one in force before it (kept unless falsy, else the ratio
      times this mask's height), and is that mask simplified with it. */
  lemma RunMasksToleranceRule(masks: seq<Element>, n: nat, ratio: real,
                              tolerance: Option<real>, simplify: Simplifier)
    requires n <= |masks|
    ensures var p := RunMasks(masks, n, ratio, tolerance, simplify);
            forall k | 0 <= k < |p.used| ::
              && StepTolerance(masks[k], ratio, Previous(tolerance, p.used, k)) == Ok(p.used[k])
              && RewriteMask(masks[k], p.used[k], simplify) == Ok(p.items[k])
  {
    var step := MaskSteps(ratio, simplify);
    var p := Run(masks, n, tolerance, step);
    forall k | 0 <= k < |p.used|
      ensures StepTolerance(masks[k], ratio, Previous(tolerance, p.used, k)) == Ok(p.used[k])
      ensures RewriteMask(masks[k], p.used[k], simplify) == Ok(p.items[k])
    {
      RunRecordsSteps(masks, n, tolerance, step, k);
      assert step(masks[k], Previous(tolerance, p.used, k)) == MaskStep(masks[k], ratio, Previous(tolerance, p.used, k), simplify);
      MaskStepRewrites(masks[k], ratio, Previous(tolerance, p.used, k), simplify);
    }
  }

  /** The tolerance rule of `simplify_masks` as a choice from the kept tolerance. */
  function MaskTolerances(ratio: real): (Element, Option<real>) -> Result<real> {
    (mask, kept) => StepTolerance(mask, ratio, kept)
  }

  /** The tolerance `simplify_masks` uses for mask `k` when every earlier
      mask went through: the rule of StepTolerance applied mask after mask,
      or the exception the first failing height raises. */
  function ToleranceAt(masks: seq<Element>, ratio: real, tolerance: Option<real>, k: nat): Result<real>
    requires k < |masks|
  {
    Chain(masks, tolerance, MaskTolerances(ratio), k)
  }

  /** An iteration of `simplify_masks` goes through exactly when it has its
      tolerance and the mask, simplified with that tolerance, can be rewritten. */
  lemma MaskStepSucceeds(mask: Element, ratio: real, tolerance: Option<real>, simplify: Simplifier)
    ensures MaskStep(mask, ratio, tolerance, simplify).Ok? <==>
              && StepTolerance(mask, ratio, tolerance).Ok?
              && RewriteMask(mask, StepTolerance(mask, ratio, tolerance).value, simplify).Ok?
  {
  }

  /** A mask's rewrite with a settled tolerance goes through. */
  function MaskRewrites(simplify: Simplifier): (Element, real) -> bool {
    (mask, t) => RewriteMask(mask, t, simplify).Ok?
  }

  /** The iteration of `simplify_masks` is a tolerance choice followed by a rewrite. */
  lemma MaskStepsChoose(ratio: real, simplify: Simplifier)
    ensures forall x, c :: MaskSteps(ratio, simplify)(x, c).Ok? <==>
              MaskTolerances(ratio)(x, c).Ok? && MaskRewrites(simplify)(x, MaskTolerances(ratio)(x, c).value)
    ensures forall x, c :: MaskSteps(ratio, simplify)(x, c).Ok? ==>
              MaskSteps(ratio, simplify)(x, c).value.1 == MaskTolerances(ratio)(x, c).value
  {
    forall x, c
      ensures MaskSteps(ratio, simplify)(x, c).Ok? <==>
                MaskTolerances(ratio)(x, c).Ok? && MaskRewrites(simplify)(x, MaskTolerances(ratio)(x, c).value)
    {
      MaskStepSucceeds(x, ratio, c, simplify);
    }
    forall x, c | MaskSteps(ratio, simplify)(x, c).Ok?
      ensures MaskSteps(ratio, simplify)(x, c).value.1 == MaskTolerances(ratio)(x, c).value
    {
      MaskStepRewrites(x, ratio, c, simplify);
    }
  }

  /** When `simplify_masks` gets through the first `n` masks: exactly when
      each of them has its tolerance and parses, is non-empty and simplifies,
      with that tolerance, to points that all have a y. */
  lemma RunMasksSucceeds(masks: seq<Element>, n: nat, ratio: real,
                         tolerance: Option<real>, simplify: Simplifier)
    requires n <= |masks|
    ensures RunMasks(masks, n, ratio, tolerance, simplify).outcome.Done? <==>
              forall k | 0 <= k < n ::
                && ToleranceAt(masks, ratio, tolerance, k).Ok?
                && RewriteMask(masks[k], ToleranceAt(masks, ratio, tolerance, k).value, simplify).Ok?
  {
    var choose, rewrite := MaskTolerances(ratio), MaskRewrites(simplify);
    MaskStepsChoose(ratio, simplify);
    RunFollowsChain(masks, n, tolerance, MaskSteps(ratio, simplify), choose, rewrite);
    ChainSucceedsEach(masks, n, tolerance, choose, rewrite);
    assert RunMasks(masks, n, ratio, tolerance, simplify) == Run(masks, n, tolerance, MaskSteps(ratio, simplify));
    if ChainSucceeds(masks, n, tolerance, choose, rewrite) {
      forall k | 0 <= k < n
        ensures && ToleranceAt(masks, ratio, tolerance, k).Ok?
                && RewriteMask(masks[k], ToleranceAt(masks, ratio, tolerance, k).value, simplify).Ok?
      {
        assert ChainOk(masks, tolerance, choose, rewrite, k);
      }
    } else {
      var k :| 0 <= k < n && !ChainOk(masks, tolerance, choose, rewrite, k);
      assert !(&& ToleranceAt(masks, ratio, tolerance, k).Ok?
               && RewriteMask(masks[k], ToleranceAt(masks, ratio, tolerance, k).value, simplify).Ok?);
    }
  }

  /** Once a mask has been simplified with a non-zero tolerance, every later
      mask is simplified with that same tolerance. */
  lemma ToleranceSticks(masks: seq<Element>, n: nat, ratio: real,
                        tolerance: Option<real>, simplify: Simplifier, i: nat, j: nat)
    requires n <= |masks|
    requires i <= j < |RunMasks(masks, n, ratio, tolerance, simplify).used|
    requires RunMasks(masks, n, ratio, tolerance, simplify).used[i] != 0.0
    ensures RunMasks(masks, n, ratio, tolerance, simplify).used[j]
              == RunMasks(masks, n, ratio, tolerance, simplify).used[i]
  {
    var used := RunMasks(masks, n, ratio, tolerance, simplify).used;
    RunMasksToleranceRule(masks, n, ratio, tolerance, simplify);
    forall k | 0 < k < |used| && used[k - 1] != 0.0 ensures used[k] == used[k - 1] {
      assert StepTolerance(masks[k], ratio, Some(used[k - 1])) == Ok(used[k]);
    }
    NonZeroSticks(used, i, j);
  }

  /** Helper for ToleranceSticks: in a sequence where each element after a
      non-zero one repeats it, a non-zero element repeats to the end. */
  lemma {:induction false} NonZeroSticks(used: seq<real>, i: nat, j: nat)
    requires forall k | 0 < k < |used| && used[k - 1] != 0.0 :: used[k] == used[k - 1]
    requires i <= j < |used| && used[i] != 0.0
    ensures used[j] == used[i]
  {
    if j > i {
      NonZeroSticks(used, i, j - 1);
    }
  }

  /** A non-zero supplied tolerance is used for every mask. */
  lemma SuppliedToleranceForAllMasks(masks: seq<Element>, ratio: real, tolerance: real, simplify: Simplifier)
    requires tolerance != 0.0
    ensures var p := RunMasks(masks, |masks|, ratio, Some(tolerance), simplify);
            forall k | 0 <= k < |p.used| :: p.used[k] == tolerance
  {
    var p := RunMasks(masks, |masks|, ratio, Some(tolerance), simplify);
    RunMasksToleranceRule(masks, |masks|, ratio, Some(tolerance), simplify);
    if p.used != [] {
      assert StepTolerance(masks[0], ratio, Some(tolerance)) == Ok(p.used[0]);
      forall k | 0 <= k < |p.used| ensures p.used[k] == tolerance {
        ToleranceSticks(masks, |masks|, ratio, Some(tolerance), simplify, 0, k);
      }
    }
  }

  /** An empty `points` attribute ends the pass: with a falsy tolerance,
      `min` of no points raises ValueError; with a kept tolerance, the log
      message divides by zero. */
  lemma EmptyMaskAborts(ratio: real, tolerance: Option<real>, simplify: Simplifier)
    ensures Falsy(tolerance) ==> MaskStep(Element(Some("")), ratio, tolerance, simplify) == Err(ValueError)
    ensures !Falsy(tolerance) ==> MaskStep(Element(Some("")), ratio, tolerance, simplify) == Err(ZeroDivisionError)
  {
    assert Tokens("") == [];
    assert ParsePoints("") == Ok([]);
  }

  // ===========================================================================
  // write

  /** `if suffix:` — None and the empty string are falsy. */
  predicate Truthy(suffix: Option<string>) {
    suffix.Some? && suffix.value != ""
  }

  /** The path `write` saves to: the file path split on every ".", the
      suffix inserted before the last piece, and the pieces joined by ".".
      With a suffix, the result is the path with the suffix and a dot put
      in front of the text after its last dot (in front of the whole path
      when it has no dot). */
  function OutputPath(filepath: string, suffix: Option<string> := Some("simple")): (p: string)
    ensures !Truthy(suffix) ==> p == filepath
    ensures Truthy(suffix) ==>
              exists k | 0 <= k <= |filepath| ::
                && (k == 0 || filepath[k - 1] == '.')
                && '.' !in filepath[k..]
                && p == filepath[..k] + suffix.value + "." + filepath[k..]
  {
    if !Truthy(suffix) then filepath
    else
      var refs := Fields(filepath, '.');
      var init, last := refs[..|refs| - 1], refs[|refs| - 1];
      var p := Join(init + [suffix.value, last], ".");
      assert "." == ['.'] && refs == init + [last];
      assert [suffix.value, last][1..] == [last];
      if init == [] then
        assert init + [suffix.value, last] == [suffix.value, last];
        assert filepath == last && filepath[..0] == "" && filepath[0..] == filepath;
        assert '.' !in last;
        assert p == filepath[..0] + suffix.value + "." + filepath[0..];
        p
      else
        JoinAppend(init, [last], ".");
        JoinAppend(init, [suffix.value, last], ".");
        var k := |Join(init, ".")| + 1;
        assert filepath == Join(init, ".") + "." + last;
        assert filepath[..k] == Join(init, ".") + "." && filepath[k..] == last;
        assert filepath[k - 1] == '.' && '.' !in last;
        assert p == filepath[..k] + suffix.value + "." + filepath[k..];
        p
  }

  /** With suffix None or empty, the document is written back to its own path. */
  lemma OutputPathWithoutSuffix(filepath: string)
    ensures OutputPath(filepath, None) == filepath
    ensures OutputPath(filepath, Some("")) == filepath
  {
  }

  /** The suffix goes before the last extension: "a.b.xml" with "simple"
      becomes "a.b.simple.xml". */
  lemma OutputPathInsertsSuffix(stem: string, extension: string, suffix: string)
    requires '.' !in extension && suffix != ""
    ensures OutputPath(stem + "." + extension, Some(suffix)) == stem + "." + suffix + "." + extension
  {
    assert "." == ['.'];
    FieldsAtLastSeparator(stem, extension, '.');
    var refs := Fields(stem + "." + extension, '.');
    var pieces := Fields(stem, '.');
    assert refs == pieces + [extension];
    assert refs[..|refs| - 1] == pieces && refs[|refs| - 1] == extension;
    assert Join(pieces, ".") == stem;
    JoinAppend(pieces, [suffix, extension], ".");
    assert [suffix, extension][1..] == [extension];
    assert Join([suffix, extension], ".") == suffix + "." + extension;
  }

  /** A path without a dot gets the suffix in front: "page" becomes "simple.page". */
  lemma OutputPathWithoutDot(filepath: string, suffix: string)
    requires '.' !in filepath && suffix != ""
    ensures OutputPath(filepath, Some(suffix)) == suffix + "." + filepath
  {
    FieldsPrefix(filepath, "", '.');
    assert filepath + "" == filepath;
    var refs := Fields(filepath, '.');
    assert refs == [filepath];
    assert refs[..0] + [suffix, filepath] == [suffix, filepath];
    assert [suffix, filepath][1..] == [filepath];
  }

  // ===========================================================================
  // The document

  /** A parsed ALTO or PAGE document: its path and its text lines in
      document order, all of one dialect. Simplification rewrites the lines
      in place. */
  class Parsed {
    const filepath: string
    const dialect: Dialect
    var lines: seq<TextLine>

    ghost predicate Valid()
      reads this
    {
      AllOf(lines, dialect)
    }

    /** `__init__`, with the XML already read into its lines. */
    constructor (filepath: string, dialect: Dialect, lines: seq<TextLine>)
      requires AllOf(lines, dialect)
      ensures Valid()
      ensures this.filepath == filepath && this.dialect == dialect && this.lines == lines
    {
      this.filepath := filepath;
      this.dialect := dialect;
      this.lines := lines;
    }

    /** `simplify_lines`: every line in document order has its baseline
        replaced by the simplifier's output, all with one epsilon (see
        RunLinesUsesOneEpsilon). An exception ends the pass; lines already
        written stay written. */
    method SimplifyLines(simplify: Simplifier, epsilonRatio: real := 0.10, epsilon: Option<real> := None)
      returns (outcome: Outcome)
      requires Valid()
      modifies this
      ensures Valid()
      ensures var p := RunLines(old(lines), |old(lines)|, epsilonRatio, epsilon, simplify);
              lines == p.items && outcome == p.outcome
    {
      ghost var step := LineSteps(epsilonRatio, simplify);
      var all := lines;
      var kept := epsilon;
      var i := 0;
      ghost var p := Run(all, 0, epsilon, step);
      while i < |all|
        invariant i <= |all| && all == old(lines)
        invariant p == Run(all, i, epsilon, step)
        invariant p.outcome == Done && lines == p.items && kept == p.cache
      {
        var r := SimplifyLine(all[i], epsilonRatio, kept, simplify, step);
        RunNext(all, i, epsilon, step);
        if r.Err? {
          RunStopsAtFailure(all, i + 1, |all|, epsilon, step);
          RunLinesKeepsAllOf(all, |all|, epsilonRatio, epsilon, simplify, dialect);
          return Failed(r.error);
        }
        lines := lines[i := r.value.0];
        kept := Some(r.value.1);
        p := Advance(p, i, r);
        i := i + 1;
      }
      RunLinesKeepsAllOf(all, |all|, epsilonRatio, epsilon, simplify, dialect);
      return Done;
    }

    /** `simplify_masks` on a PAGE document (`Alto` leaves the mask
        accessors abstract, so only a PAGE document has masks): every mask
        in document order has its points replaced by the simplifier's
        output, the tolerance following ToleranceSticks. Nothing else in the
        document changes. An exception ends the pass; masks already written
        stay written. */
    method SimplifyMasks(simplify: Simplifier, ratio: real := 0.15, tolerance: Option<real> := None)
      returns (outcome: Outcome)
      requires Valid() && dialect == PageXML
      modifies this
      ensures Valid() && AllPage(old(lines)) && SameLayout(old(lines), lines)
      ensures var p := RunMasks(Masks(old(lines)), |Masks(old(lines))|, ratio, tolerance, simplify);
              Masks(lines) == p.items && outcome == p.outcome
    {
      ghost var step := MaskSteps(ratio, simplify);
      var masks := Masks(lines);
      var kept := tolerance;
      var j := 0;
      ghost var p := Run(masks, 0, tolerance, step);
      while j < |masks|
        invariant j <= |masks| && AllPage(lines)
        invariant AllPage(old(lines)) && masks == Masks(old(lines)) && SameLayout(old(lines), lines)
        invariant p == Run(masks, j, tolerance, step)
        invariant p.outcome == Done && Masks(lines) == p.items && kept == p.cache
      {
        var r := SimplifyMask(masks[j], ratio, kept, simplify, step);
        RunNext(masks, j, tolerance, step);
        if r.Err? {
          RunStopsAtFailure(masks, j + 1, |masks|, tolerance, step);
          return Failed(r.error);
        }
        lines := SetMask(lines, j, r.value.0);
        kept := Some(r.value.1);
        p := Advance(p, j, r);
        j := j + 1;
      }
      return Done;
    }
  }

  /** The body of the `simplify_lines` loop for one line, given the epsilon
      kept in `kwargs` so far: parse the baseline, take the kept epsilon or
      derive one from the line's height, simplify, write the baseline back.
      The rewritten line and the epsilon used come out, or the exception.
      It performs `LineStep` statement by statement, as the loop does, and
      its postcondition says it computes exactly that step; the loop in
      `Parsed.SimplifyLines` is then proved against the pass of `LineStep`. */
  method SimplifyLine(line: TextLine, ratio: real, kept: Option<real>, simplify: Simplifier,
                      ghost step: Step<TextLine>)
    returns (r: Result<(TextLine, real)>)
    requires step == LineSteps(ratio, simplify)
    ensures r == step(line, kept)
    ensures r.Ok? ==> DialectOf(r.value.0) == DialectOf(line)
  {
    var origPoints := LineParse(line);
    if origPoints.Err? {
      return Err(origPoints.error);
    }
    var epsilon: real;
    if kept.Some? {
      epsilon := kept.value;
    } else {
      var height := LineHeight(line);
      if height.Err? {
        return Err(height.error);
      }
      epsilon := Scaled(ratio, height.value);
    }
    var points := simplify(origPoints.value, epsilon);
    var written := LineWrite(line, points);
    if written.Err? {
      return Err(written.error);
    }
    return Ok((written.value, epsilon));
  }

  /** The body of the `simplify_masks` loop for one mask, given the tolerance
      in force: parse, recompute the tolerance from the mask's height if it
      is falsy, simplify, log (dividing by the original point count), write
      back. It performs `MaskStep` statement by statement and is proved to
      compute exactly that step. */
  method SimplifyMask(mask: Element, ratio: real, tolerance: Option<real>, simplify: Simplifier,
                      ghost step: Step<Element>)
    returns (r: Result<(Element, real)>)
    requires step == MaskSteps(ratio, simplify)
    ensures r == step(mask, tolerance)
  {
    var coords := MaskParse(mask);
    if coords.Err? {
      return Err(coords.error);
    }
    var t: real;
    if Falsy(tolerance) {
      var height := MaskHeight(mask);
      if height.Err? {
        return Err(height.error);
      }
      t := Scaled(ratio, height.value);
    } else {
      t := tolerance.value;
    }
    var newCoords := simplify(coords.value, t);
    if |coords.value| == 0 {
      return Err(ZeroDivisionError);
    }
    var written := MaskWrite(mask, newCoords);
    if written.Err? {
      return Err(written.error);
    }
    return Ok((written.value, t));
  }
}
