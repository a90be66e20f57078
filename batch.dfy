/**
 * The shape shared by every loop of the scripts: items (table rows, ini
 * lines, genes, manifest lines) are handled one at a time in order, each
 * step adds its output, and the first step that raises ends the whole run.
 * Nothing after that step happens, but everything before it already has.
 */
module Batch {
  import opened Wrappers

  /** The output produced so far and, when the run ended on an exception, that exception. */
  datatype Run<T, E> = Run(output: seq<T>, failure: Option<E>)

  /** Runs `step` on every item in order, stopping after the first step that fails. */
  function RunAll<R, T, E>(items: seq<R>, step: (nat, R) -> Run<T, E>): Run<T, E> {
    if items == [] then Run([], None)
    else
      var prev := RunAll(items[..|items| - 1], step);
      if prev.failure.Some? then prev
      else
        var last := step(|items| - 1, items[|items| - 1]);
        Run(prev.output + last.output, last.failure)
  }

  /** The outputs of all steps, concatenated in item order. */
  function Outputs<R, T, E>(items: seq<R>, step: (nat, R) -> Run<T, E>): seq<T> {
    if items == [] then []
    else Outputs(items[..|items| - 1], step) + step(|items| - 1, items[|items| - 1]).output
  }

  /** Unfolds one more item of a run. */
  lemma RunAllSnoc<R, T, E>(items: seq<R>, x: R, step: (nat, R) -> Run<T, E>)
    ensures RunAll(items + [x], step) ==
      var prev := RunAll(items, step);
      if prev.failure.Some? then prev
      else Run(prev.output + step(|items|, x).output, step(|items|, x).failure)
  {
    assert (items + [x])[..|items|] == items;
  }

  /** Once a run has failed on a prefix, later items change nothing. */
  lemma {:induction false} RunAllSticky<R, T, E>(items: seq<R>, n: nat, step: (nat, R) -> Run<T, E>)
    requires n <= |items|
    requires RunAll(items[..n], step).failure.Some?
    ensures RunAll(items, step) == RunAll(items[..n], step)
    decreases |items|
  {
    if n < |items| {
      var init := items[..|items| - 1];
      assert init[..n] == items[..n];
      RunAllSticky(init, n, step);
    } else {
      assert items[..n] == items;
    }
  }

  /**
   * One more step of a run that has not failed: its output is appended, and
   * when it fails the run ends there.
   */
  lemma RunAllStep<R, T, E>(items: seq<R>, i: nat, step: (nat, R) -> Run<T, E>, out: seq<T>)
    requires i < |items|
    requires RunAll(items[..i], step) == Run(out, None)
    ensures RunAll(items[..i + 1], step) == Run(out + step(i, items[i]).output, step(i, items[i]).failure)
    ensures step(i, items[i]).failure.Some? ==> RunAll(items, step) == RunAll(items[..i + 1], step)
  {
    RunAllExtend(items, i, step, out);
    if step(i, items[i]).failure.Some? {
      RunAllSticky(items, i + 1, step);
    }
  }

  lemma RunAllExtend<R, T, E>(items: seq<R>, i: nat, step: (nat, R) -> Run<T, E>, out: seq<T>)
    requires i < |items|
    requires RunAll(items[..i], step) == Run(out, None)
    ensures RunAll(items[..i + 1], step) == Run(out + step(i, items[i]).output, step(i, items[i]).failure)
  {
    var pre, x := items[..i], items[i];
    assert items[..i + 1] == pre + [x];
    RunAllSnoc(pre, x, step);
  }

  /** When no step fails, the run completes with every step's output, in order. */
  lemma {:induction false} RunAllCompletes<R, T, E>(items: seq<R>, step: (nat, R) -> Run<T, E>)
    requires forall i :: 0 <= i < |items| ==> step(i, items[i]).failure.None?
    ensures RunAll(items, step) == Run(Outputs(items, step), None)
  {
    if items != [] {
      var init := items[..|items| - 1];
      assert forall i :: 0 <= i < |init| ==> init[i] == items[i];
      RunAllCompletes(init, step);
    }
  }

  /**
   * When step `k` is the first one to fail, the run ends with its exception,
   * holding the outputs of steps 0 to k (the failing step's partial output too).
   */
  lemma RunAllStops<R, T, E>(items: seq<R>, k: nat, step: (nat, R) -> Run<T, E>)
    requires k < |items|
    requires forall i :: 0 <= i < k ==> step(i, items[i]).failure.None?
    requires step(k, items[k]).failure.Some?
    ensures RunAll(items, step) == Run(Outputs(items[..k + 1], step), step(k, items[k]).failure)
  {
    var pre := items[..k];
    assert forall i :: 0 <= i < |pre| ==> pre[i] == items[i];
    RunAllCompletes(pre, step);
    assert items[..k + 1] == pre + [items[k]];
    assert items[..k + 1][..k] == pre;
    RunAllSnoc(pre, items[k], step);
    RunAllSticky(items, k + 1, step);
  }

  /** A property of every value output by every step holds of every value of the run. */
  lemma {:induction false} RunAllKeeps<R, T, E>(items: seq<R>, step: (nat, R) -> Run<T, E>, p: T -> bool)
    requires forall i :: 0 <= i < |items| ==>
      forall j :: 0 <= j < |step(i, items[i]).output| ==> p(step(i, items[i]).output[j])
    ensures forall j :: 0 <= j < |RunAll(items, step).output| ==> p(RunAll(items, step).output[j])
  {
    if items != [] {
      var n := |items| - 1;
      var init := items[..n];
      assert forall i :: 0 <= i < |init| ==> init[i] == items[i];
      RunAllKeeps(init, step, p);
      var prev, last := RunAll(init, step), step(n, items[n]);
      if prev.failure.None? {
        var out := prev.output + last.output;
        assert RunAll(items, step).output == out;
        forall j | 0 <= j < |out|
          ensures p(out[j])
        {
          if j >= |prev.output| {
            assert out[j] == last.output[j - |prev.output|];
          }
        }
      }
    }
  }

  /** When every step outputs exactly one value, the outputs line up with the items. */
  lemma {:induction false} OutputsOneEach<R, T, E>(items: seq<R>, step: (nat, R) -> Run<T, E>)
    requires forall i :: 0 <= i < |items| ==> |step(i, items[i]).output| == 1
    ensures |Outputs(items, step)| == |items|
    ensures forall i :: 0 <= i < |items| ==> Outputs(items, step)[i] == step(i, items[i]).output[0]
  {
    if items != [] {
      var init := items[..|items| - 1];
      assert forall i :: 0 <= i < |init| ==> init[i] == items[i];
      OutputsOneEach(init, step);
    }
  }
}
