/**
 * The ordered queue behind `flush`: the actions run first to last, each on the state the
 * one before left, and the run stops at the first action that fails. The runner is generic
 * in the kind of job and state so that the facts about order need nothing about what an
 * action does.
 */
module ActionQueue {
  import opened Errors

  /** The outcome of one step and the state after it. */
  datatype Stepped<S> = Stepped(outcome: Outcome, state: S)

  /**
   * The outcome of running a queue, the state after it and how many leading jobs ran
   * before the first failure (all of them when the outcome is `Pass`).
   */
  datatype Drained<S> = Drained(outcome: Outcome, state: S, done: nat)

  /** The run of `q` from index `from` on, starting in state `s`. */
  function Run<J, S>(step: (J, S) -> Stepped<S>, q: seq<J>, from: nat, s: S): (r: Drained<S>)
    decreases |q| - from, 1
    ensures r.done <= |q| && (r.outcome.Pass? <==> r.done == |q|)
    ensures from <= |q| ==> from <= r.done
  {
    if from >= |q| then Drained(Pass, s, |q|) else RunAt(step, q, from, s)
  }

  /** The run from the job at index `from`: that job, then the rest when it passed. */
  function RunAt<J, S>(step: (J, S) -> Stepped<S>, q: seq<J>, from: nat, s: S): (r: Drained<S>)
    requires from < |q|
    decreases |q| - from, 0
    ensures from <= r.done <= |q| && (r.outcome.Pass? <==> r.done == |q|)
  {
    var st := step(q[from], s);
    if st.outcome.Fail? then Drained(st.outcome, st.state, from)
    else Run(step, q, from + 1, st.state)
  }

  /** Running `a + b` from index `i` inside `b` is running `b` from the same job on. */
  lemma {:induction false} RunShift<J, S>(step: (J, S) -> Stepped<S>, a: seq<J>, b: seq<J>, i: nat, j: nat, s: S)
    requires i == |a| + j && j <= |b|
    decreases |b| - j
    ensures var d := Run(step, a + b, i, s);
      var db := Run(step, b, j, s);
      d.outcome == db.outcome && d.state == db.state && d.done == |a| + db.done
  {
    if j < |b| {
      assert (a + b)[i] == b[j];
      assert Run(step, a + b, i, s) == RunAt(step, a + b, i, s);
      assert Run(step, b, j, s) == RunAt(step, b, j, s);
      RunShift(step, a, b, i + 1, j + 1, step(b[j], s).state);
    }
  }

  /** Running `a + b` from index `from` of `a`: `a` stops the run, or `b` continues it. */
  lemma {:induction false} RunConcatFrom<J, S>(step: (J, S) -> Stepped<S>, a: seq<J>, b: seq<J>, from: nat, s: S)
    requires from <= |a|
    decreases |a| - from
    ensures var d := Run(step, a + b, from, s);
      var da := Run(step, a, from, s);
      if da.outcome.Fail? then d == da
      else var db := Run(step, b, 0, da.state); d == Drained(db.outcome, db.state, |a| + db.done)
  {
    if from == |a| {
      RunShift(step, a, b, from, 0, s);
    } else {
      assert (a + b)[from] == a[from];
      assert Run(step, a + b, from, s) == RunAt(step, a + b, from, s);
      assert Run(step, a, from, s) == RunAt(step, a, from, s);
      RunConcatFrom(step, a, b, from + 1, step(a[from], s).state);
    }
  }

  /**
   * A queue runs as its two halves in turn: a failure in the first half stops the run
   * there, and otherwise the second half runs on the state the first half left.
   */
  lemma RunConcat<J, S>(step: (J, S) -> Stepped<S>, a: seq<J>, b: seq<J>, s: S)
    ensures var d := Run(step, a + b, 0, s);
      var da := Run(step, a, 0, s);
      if da.outcome.Fail? then d == da
      else var db := Run(step, b, 0, da.state); d == Drained(db.outcome, db.state, |a| + db.done)
  {
    RunConcatFrom(step, a, b, 0, s);
  }

  /** A run from `from` that failed stopped at `done`: see `RunFail`. */
  lemma {:induction false} RunFailFrom<J, S>(step: (J, S) -> Stepped<S>, q: seq<J>, from: nat, s: S)
    requires Run(step, q, from, s).outcome.Fail?
    decreases |q| - from
    ensures var r := Run(step, q, from, s);
      var before := Run(step, q[..r.done], from, s);
      r.done < |q| && before.outcome == Pass && step(q[r.done], before.state) == Stepped(r.outcome, r.state)
  {
    assert Run(step, q, from, s) == RunAt(step, q, from, s);
    var st := step(q[from], s);
    if st.outcome.Pass? {
      var d := Run(step, q, from + 1, st.state).done;
      RunFailFrom(step, q, from + 1, st.state);
      assert q[..d][from] == q[from];
      assert Run(step, q[..d], from, s) == RunAt(step, q[..d], from, s);
    }
  }

  /**
   * A run that failed stopped at the job at index `done`: every job before it passed, and
   * that job failed on the state they left, ending the run in the state it left.
   */
  lemma RunFail<J, S>(step: (J, S) -> Stepped<S>, q: seq<J>, s: S)
    requires Run(step, q, 0, s).outcome.Fail?
    ensures var r := Run(step, q, 0, s);
      var before := Run(step, q[..r.done], 0, s);
      r.done < |q| && before.outcome == Pass && step(q[r.done], before.state) == Stepped(r.outcome, r.state)
  {
    RunFailFrom(step, q, 0, s);
  }
}
