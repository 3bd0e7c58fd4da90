/** The optimisation loop (`OptimisationOrchestrator.optimise`): each attempt
    asks the prompt agent for a prompt, the seed picker for parameters, and the
    evaluator for a verdict and an objective value; the verdict is fed back to
    the next attempt, the best correct result is kept, and the loop stops at
    the first correct attempt. The two agents, the evaluator and the `:.4f`
    formatting of the objective are parameters. */
module Orchestrator {
  import opened Wrappers
  import opened Exceptions
  import opened Json
  import opened Text

  /** One completed attempt: what went in and what came out. */
  datatype Attempt = Attempt(index: nat, feedbackIn: Option<string>, prompt: string, params: Json,
                             correct: bool, metric: real)

  /** The best correct result so far; `None` for the metric is the initial
      `float("inf")`. */
  datatype Best = Best(params: Option<Json>, metric: Option<real>)

  // ---------------------------------------------------------------------------
  // Feedback
  // ---------------------------------------------------------------------------

  function BoolText(b: bool): string
  {
    if b then "True" else "False"
  }

  /** The feedback line after attempt `k` (0-based); `fmt` renders the
      objective with four decimals. */
  function FeedbackLine(k: nat, correct: bool, metric: real, fmt: real -> string): (line: string)
    ensures StartsWith(line, "Attempt " + NatToString(k + 1) + ": correctness=" + BoolText(correct))
    ensures EndsWith(line, "; objective=" + fmt(metric))
    ensures |line| == |"Attempt " + NatToString(k + 1) + ": correctness=" + BoolText(correct)| + |"; objective=" + fmt(metric)|
  {
    var head := "Attempt " + NatToString(k + 1) + ": correctness=" + BoolText(correct);
    var line := head + "; objective=" + fmt(metric);
    assert line[..|head|] == head;
    assert line[|line| - |"; objective=" + fmt(metric)|..] == "; objective=" + fmt(metric);
    line
  }

  /** Where the characters of a feedback line sit: the attempt number from
      position 8, a colon right after it, and the first letter of the verdict
      14 positions further on. */
  lemma FeedbackLineAt(k: nat, correct: bool, metric: real, fmt: real -> string)
    ensures var n := NatToString(k + 1); var line := FeedbackLine(k, correct, metric, fmt);
      && |line| > 8 + |n| + 14
      && (forall i :: 0 <= i < |n| ==> line[8 + i] == n[i])
      && line[8 + |n|] == ':'
      && line[8 + |n| + 14] == BoolText(correct)[0]
  {
    var n := NatToString(k + 1);
    var head := "Attempt " + n + ": correctness=" + BoolText(correct);
    var line := FeedbackLine(k, correct, metric, fmt);
    assert line[..|head|] == head;
    assert |head| == 8 + |n| + 14 + |BoolText(correct)|;
    forall i | 0 <= i < |n|
      ensures line[8 + i] == n[i]
    {
      assert head[8 + i] == n[i];
    }
    assert head[8 + |n|] == ':';
    assert head[8 + |n| + 14] == BoolText(correct)[0];
  }

  lemma DigitIsNotColon(m: string, j: nat)
    requires forall i :: 0 <= i < |m| ==> IsDigit(m[i])
    requires j < |m|
    ensures m[j] != ':'
  {
    assert IsDigit(m[j]);
  }

  /** A numeral written from position 8 cannot run past a colon at `8 + |n|`,
      so it is no longer than `n`. */
  lemma ColonEndsNumeral(line: string, n: string, m: string)
    requires forall i :: 0 <= i < |m| ==> IsDigit(m[i])
    requires 8 + |n| < |line| && line[8 + |n|] == ':'
    requires 8 + |m| < |line| && forall i :: 0 <= i < |m| ==> line[8 + i] == m[i]
    ensures |m| <= |n|
  {
    if |n| < |m| {
      DigitIsNotColon(m, |n|);
      assert false;
    }
  }

  /** Two digit strings that are both written from position 8 of the same
      line and both followed there by a colon are the same. */
  lemma SameNumeral(line: string, n1: string, n2: string)
    requires forall i :: 0 <= i < |n1| ==> IsDigit(n1[i])
    requires forall i :: 0 <= i < |n2| ==> IsDigit(n2[i])
    requires 8 + |n1| < |line| && line[8 + |n1|] == ':' && forall i :: 0 <= i < |n1| ==> line[8 + i] == n1[i]
    requires 8 + |n2| < |line| && line[8 + |n2|] == ':' && forall i :: 0 <= i < |n2| ==> line[8 + i] == n2[i]
    ensures n1 == n2
  {
    ColonEndsNumeral(line, n1, n2);
    ColonEndsNumeral(line, n2, n1);
    forall i | 0 <= i < |n1|
      ensures n1[i] == n2[i]
    {
      assert line[8 + i] == n1[i];
    }
  }

  /** The feedback line identifies the attempt it reports on and its verdict. */
  lemma FeedbackIdentifiesAttempt(k1: nat, c1: bool, m1: real, k2: nat, c2: bool, m2: real, fmt: real -> string)
    requires FeedbackLine(k1, c1, m1, fmt) == FeedbackLine(k2, c2, m2, fmt)
    ensures k1 == k2 && c1 == c2
  {
    FeedbackLineAt(k1, c1, m1, fmt);
    FeedbackLineAt(k2, c2, m2, fmt);
    SameNumeral(FeedbackLine(k1, c1, m1, fmt), NatToString(k1 + 1), NatToString(k2 + 1));
    NatToStringRoundTrip(k1 + 1);
    NatToStringRoundTrip(k2 + 1);
  }

  /** The feedback the next attempt receives: none before the first attempt,
      then the line about the previous one. */
  function NextFeedback(attempts: seq<Attempt>, fmt: real -> string): (fb: Option<string>)
    ensures attempts == [] <==> fb.None?
  {
    if attempts == [] then None
    else
      var a := attempts[|attempts| - 1];
      Some(FeedbackLine(|attempts| - 1, a.correct, a.metric, fmt))
  }

  // ---------------------------------------------------------------------------
  // Keeping the best result
  // ---------------------------------------------------------------------------

  /** `metric_val < best_metric`, with `None` as +inf. */
  predicate Improves(m: real, best: Option<real>)
  {
    best.None? || m < best.value
  }

  /** The update after one attempt: only a correct attempt that strictly
      improves on the best metric replaces it. */
  function BestStep(b: Best, a: Attempt): (r: Best)
    ensures r == b || (a.correct && Improves(a.metric, b.metric) && r == Best(Some(a.params), Some(a.metric)))
    ensures b.metric.Some? ==> r.metric.Some? && r.metric.value <= b.metric.value
    ensures !a.correct ==> r == b
  {
    if a.correct && Improves(a.metric, b.metric) then Best(Some(a.params), Some(a.metric)) else b
  }

  /** The best result after a sequence of attempts. */
  function BestOf(attempts: seq<Attempt>): (b: Best)
    ensures b.params.None? <==> b.metric.None?
    decreases |attempts|
  {
    if attempts == [] then Best(None, None)
    else BestStep(BestOf(attempts[..|attempts| - 1]), attempts[|attempts| - 1])
  }

  /** The best metric is the least objective among the correct attempts, it
      belongs to the first correct attempt reaching it, and the kept
      parameters are that attempt's; with no correct attempt nothing is kept. */
  lemma {:induction false} BestIsFirstMinimum(attempts: seq<Attempt>)
    ensures BestOf(attempts).metric.None? <==> forall i :: 0 <= i < |attempts| ==> !attempts[i].correct
    ensures BestOf(attempts).metric.Some? ==>
      var x := BestOf(attempts).metric.value;
      && (forall i :: 0 <= i < |attempts| && attempts[i].correct ==> x <= attempts[i].metric)
      && exists i :: 0 <= i < |attempts| && attempts[i].correct && attempts[i].metric == x
           && BestOf(attempts).params == Some(attempts[i].params)
           && forall j :: 0 <= j < i && attempts[j].correct ==> x < attempts[j].metric
    decreases |attempts|
  {
    if attempts != [] {
      var n := |attempts| - 1;
      var pre := attempts[..n];
      var a := attempts[n];
      BestIsFirstMinimum(pre);
      assert forall i :: 0 <= i < n ==> attempts[i] == pre[i];
      var b := BestOf(pre);
      if a.correct && Improves(a.metric, b.metric) {
        assert BestOf(attempts) == Best(Some(a.params), Some(a.metric));
        assert attempts[n].correct && attempts[n].metric == a.metric;
      } else {
        assert BestOf(attempts) == b;
        if b.metric.Some? {
          var x := b.metric.value;
          var i :| 0 <= i < n && pre[i].correct && pre[i].metric == x && b.params == Some(pre[i].params)
            && forall j :: 0 <= j < i && pre[j].correct ==> x < pre[j].metric;
          assert attempts[i] == pre[i];
        }
      }
    }
  }

  /** The best metric never increases: a longer run of attempts keeps a best
      at least as good. */
  lemma {:induction false} BestNeverIncreases(attempts: seq<Attempt>, k: nat)
    requires k <= |attempts|
    requires BestOf(attempts[..k]).metric.Some?
    ensures BestOf(attempts).metric.Some?
    ensures BestOf(attempts).metric.value <= BestOf(attempts[..k]).metric.value
    decreases |attempts| - k
  {
    if k < |attempts| {
      var n := |attempts[..k + 1]| - 1;
      assert attempts[..k + 1][..n] == attempts[..k];
      assert attempts[..k + 1][n] == attempts[k];
      BestNeverIncreases(attempts, k + 1);
    } else {
      assert attempts[..k] == attempts;
    }
  }

  /** An attempt that only ties the best keeps the earlier result. */
  lemma TieKeepsEarlier(b: Best, a: Attempt)
    requires b.metric.Some? && a.metric == b.metric.value
    ensures BestStep(b, a) == b
  {
  }

  /** `best_params or params`: the kept parameters unless none are kept or
      they are an empty dict. */
  function BestOrLast(b: Best, last: Json): (p: Json)
    ensures b.params.Some? && Truthy(b.params.value) ==> p == b.params.value
    ensures b.params.None? || !Truthy(b.params.value) ==> p == last
  {
    if b.params.Some? && Truthy(b.params.value) then b.params.value else last
  }

  /** Since the loop stops at the first correct attempt, what it returns is
      always the last attempt's parameters. */
  lemma ReturnsLastParams(attempts: seq<Attempt>)
    requires attempts != []
    requires forall i :: 0 <= i < |attempts| - 1 ==> !attempts[i].correct
    ensures BestOrLast(BestOf(attempts), attempts[|attempts| - 1].params) == attempts[|attempts| - 1].params
  {
    var n := |attempts| - 1;
    var pre := attempts[..n];
    assert forall i :: 0 <= i < |pre| ==> !pre[i].correct;
    BestIsFirstMinimum(pre);
  }

  // ---------------------------------------------------------------------------
  // The loop
  // ---------------------------------------------------------------------------

  /** Attempt `i` is what the collaborators produce from its index and the
      feedback of the attempt before it. */
  predicate AttemptFollows(attempts: seq<Attempt>, i: nat, genPrompt: (nat, Option<string>) -> Result<string, PyError>,
                           pick: string -> Result<Json, PyError>, evaluate: Json -> (bool, real), fmt: real -> string)
    requires i < |attempts|
  {
    && attempts[i].index == i
    && attempts[i].feedbackIn == NextFeedback(attempts[..i], fmt)
    && genPrompt(i, attempts[i].feedbackIn) == Ok(attempts[i].prompt)
    && pick(attempts[i].prompt) == Ok(attempts[i].params)
    && evaluate(attempts[i].params) == (attempts[i].correct, attempts[i].metric)
  }

  /** Every recorded attempt follows from the ones before it. */
  predicate Trace(attempts: seq<Attempt>, genPrompt: (nat, Option<string>) -> Result<string, PyError>,
                  pick: string -> Result<Json, PyError>, evaluate: Json -> (bool, real), fmt: real -> string)
  {
    forall i :: 0 <= i < |attempts| ==> AttemptFollows(attempts, i, genPrompt, pick, evaluate, fmt)
  }

  /** The attempt that did not complete: its prompt or its parameters failed
      with `e`. */
  predicate FailedAt(k: nat, fb: Option<string>, e: PyError, genPrompt: (nat, Option<string>) -> Result<string, PyError>,
                     pick: string -> Result<Json, PyError>)
  {
    || genPrompt(k, fb) == Err(e)
    || (genPrompt(k, fb).Ok? && pick(genPrompt(k, fb).value) == Err(e))
  }

  /** Recording one more attempt extends the trace, the feedback chain and the
      best-result fold by one step. */
  lemma Extend(attempts: seq<Attempt>, a: Attempt, genPrompt: (nat, Option<string>) -> Result<string, PyError>,
               pick: string -> Result<Json, PyError>, evaluate: Json -> (bool, real), fmt: real -> string)
    requires Trace(attempts, genPrompt, pick, evaluate, fmt)
    requires a.index == |attempts| && a.feedbackIn == NextFeedback(attempts, fmt)
    requires genPrompt(a.index, a.feedbackIn) == Ok(a.prompt) && pick(a.prompt) == Ok(a.params)
    requires evaluate(a.params) == (a.correct, a.metric)
    ensures Trace(attempts + [a], genPrompt, pick, evaluate, fmt)
    ensures NextFeedback(attempts + [a], fmt) == Some(FeedbackLine(|attempts|, a.correct, a.metric, fmt))
    ensures BestOf(attempts + [a]) == BestStep(BestOf(attempts), a)
  {
    var t := attempts + [a];
    assert t[..|attempts|] == attempts;
    forall i | 0 <= i < |t|
      ensures AttemptFollows(t, i, genPrompt, pick, evaluate, fmt)
    {
      if i < |attempts| {
        assert t[..i] == attempts[..i];
        assert AttemptFollows(attempts, i, genPrompt, pick, evaluate, fmt);
      }
    }
  }

  /** How a run of `optimise` ends, given the attempts it recorded:
      - with no attempt allowed, `params` is never bound (UnboundLocalError);
      - otherwise at most `maxAttempts` attempts are made, and every attempt
        but the last was incorrect;
      - a result comes back only after at least one attempt, and it is the
        best kept parameters or, failing those, the last attempt's;
      - a result from an incorrect last attempt means the budget ran out;
      - the prompt is written exactly when the last attempt was correct, and
        it is that attempt's prompt;
      - an error is the failure of the next attempt's prompt or parameters,
        after attempts that were all incorrect. */
  predicate Outcome(maxAttempts: int, r: Result<Json, PyError>, attempts: seq<Attempt>, written: Option<string>,
                    genPrompt: (nat, Option<string>) -> Result<string, PyError>,
                    pick: string -> Result<Json, PyError>, fmt: real -> string)
  {
    && (|attempts| == 0 || |attempts| <= maxAttempts)
    && (forall i :: 0 <= i < |attempts| - 1 ==> !attempts[i].correct)
    && (maxAttempts <= 0 ==> r == Err(UnboundLocalError("params")) && attempts == [])
    && (r.Ok? ==>
          && attempts != []
          && r.value == BestOrLast(BestOf(attempts), attempts[|attempts| - 1].params)
          && (!attempts[|attempts| - 1].correct ==> |attempts| == maxAttempts))
    && (written.Some? <==> r.Ok? && attempts[|attempts| - 1].correct)
    && (written.Some? ==> written.value == attempts[|attempts| - 1].prompt)
    && (r.Err? ==> forall i :: 0 <= i < |attempts| ==> !attempts[i].correct)
    && (r.Err? && maxAttempts > 0 ==>
          |attempts| < maxAttempts && FailedAt(|attempts|, NextFeedback(attempts, fmt), r.error, genPrompt, pick))
  }

  /** No attempt allowed: the loop body never runs. */
  lemma NoAttemptOutcome(maxAttempts: int, genPrompt: (nat, Option<string>) -> Result<string, PyError>,
                         pick: string -> Result<Json, PyError>, fmt: real -> string)
    requires maxAttempts <= 0
    ensures Outcome(maxAttempts, Err(UnboundLocalError("params")), [], None, genPrompt, pick, fmt)
  {
  }

  /** The next attempt failed before it could be evaluated. */
  lemma FailureOutcome(maxAttempts: int, attempts: seq<Attempt>, e: PyError,
                       genPrompt: (nat, Option<string>) -> Result<string, PyError>,
                       pick: string -> Result<Json, PyError>, fmt: real -> string)
    requires |attempts| < maxAttempts
    requires forall i :: 0 <= i < |attempts| ==> !attempts[i].correct
    requires FailedAt(|attempts|, NextFeedback(attempts, fmt), e, genPrompt, pick)
    ensures Outcome(maxAttempts, Err(e), attempts, None, genPrompt, pick, fmt)
  {
  }

  /** The last attempt was correct: its prompt is written and the result is
      returned. */
  lemma SuccessOutcome(maxAttempts: int, attempts: seq<Attempt>,
                       genPrompt: (nat, Option<string>) -> Result<string, PyError>,
                       pick: string -> Result<Json, PyError>, fmt: real -> string)
    requires attempts != [] && |attempts| <= maxAttempts
    requires forall i :: 0 <= i < |attempts| - 1 ==> !attempts[i].correct
    requires attempts[|attempts| - 1].correct
    ensures var last := attempts[|attempts| - 1];
      Outcome(maxAttempts, Ok(BestOrLast(BestOf(attempts), last.params)), attempts, Some(last.prompt), genPrompt, pick, fmt)
  {
  }

  /** Every allowed attempt was made and none was correct. */
  lemma ExhaustedOutcome(maxAttempts: int, attempts: seq<Attempt>,
                         genPrompt: (nat, Option<string>) -> Result<string, PyError>,
                         pick: string -> Result<Json, PyError>, fmt: real -> string)
    requires attempts != [] && |attempts| == maxAttempts
    requires forall i :: 0 <= i < |attempts| ==> !attempts[i].correct
    ensures var last := attempts[|attempts| - 1];
      Outcome(maxAttempts, Ok(BestOrLast(BestOf(attempts), last.params)), attempts, None, genPrompt, pick, fmt)
  {
  }

  /** `optimise`: returns the result, the attempts made and the prompt written
      to the output file, if any. */
  method Optimise(maxAttempts: int, genPrompt: (nat, Option<string>) -> Result<string, PyError>,
                  pick: string -> Result<Json, PyError>, evaluate: Json -> (bool, real), fmt: real -> string)
    returns (r: Result<Json, PyError>, attempts: seq<Attempt>, written: Option<string>)
    ensures Trace(attempts, genPrompt, pick, evaluate, fmt)
    ensures Outcome(maxAttempts, r, attempts, written, genPrompt, pick, fmt)
  {
    var feedback: Option<string> := None;
    var bestParams: Option<Json> := None;
    var bestMetric: Option<real> := None;
    var params: Option<Json> := None;
    attempts := [];
    written := None;
    var attempt := 0;
    while attempt < maxAttempts
      invariant attempt == |attempts|
      invariant attempt == 0 || attempt <= maxAttempts
      invariant Trace(attempts, genPrompt, pick, evaluate, fmt)
      invariant forall i :: 0 <= i < |attempts| ==> !attempts[i].correct
      invariant feedback == NextFeedback(attempts, fmt)
      invariant Best(bestParams, bestMetric) == BestOf(attempts)
      invariant params.None? <==> attempts == []
      invariant params.Some? ==> params.value == attempts[|attempts| - 1].params
      invariant written.None?
    {
      var promptTxt := genPrompt(attempt, feedback);
      if promptTxt.Err? {
        FailureOutcome(maxAttempts, attempts, promptTxt.error, genPrompt, pick, fmt);
        return Err(promptTxt.error), attempts, written;
      }
      var picked := pick(promptTxt.value);
      if picked.Err? {
        FailureOutcome(maxAttempts, attempts, picked.error, genPrompt, pick, fmt);
        return Err(picked.error), attempts, written;
      }
      params := Some(picked.value);
      var verdict := evaluate(picked.value);
      var isCorrect, metricVal := verdict.0, verdict.1;
      var a := Attempt(attempt, feedback, promptTxt.value, picked.value, isCorrect, metricVal);
      Extend(attempts, a, genPrompt, pick, evaluate, fmt);
      attempts := attempts + [a];
      assert attempts[|attempts| - 1] == a;
      feedback := Some(FeedbackLine(attempt, isCorrect, metricVal, fmt));
      if isCorrect && (bestMetric.None? || metricVal < bestMetric.value) {
        bestMetric := Some(metricVal);
        bestParams := Some(picked.value);
      }
      if isCorrect {
        written := Some(promptTxt.value);
        SuccessOutcome(maxAttempts, attempts, genPrompt, pick, fmt);
        return Ok(BestOrLast(Best(bestParams, bestMetric), picked.value)), attempts, written;
      }
      attempt := attempt + 1;
    }
    if params.None? {
      NoAttemptOutcome(maxAttempts, genPrompt, pick, fmt);
      return Err(UnboundLocalError("params")), attempts, written;
    }
    ExhaustedOutcome(maxAttempts, attempts, genPrompt, pick, fmt);
    return Ok(BestOrLast(Best(bestParams, bestMetric), params.value)), attempts, written;
  }
}
