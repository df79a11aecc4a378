/** The shape shared by the four enable/disable operations: a left fold over
    the items of a batch that replaces each item by the outcome of one step
    and appends the step's log lines. The step sees the item and its index,
    and nothing of the other items, which is where failure isolation comes
    from. */
module Batch {

  /** Concatenation of log segments, in order. */
  function Flatten<E>(segments: seq<seq<E>>): seq<E>
  {
    if |segments| == 0 then [] else segments[0] + Flatten(segments[1..])
  }

  lemma {:induction false} FlattenAppend<E>(a: seq<seq<E>>, b: seq<seq<E>>)
    ensures Flatten(a + b) == Flatten(a) + Flatten(b)
  {
    if |a| == 0 {
      assert a + b == b;
    } else {
      assert (a + b)[1..] == a[1..] + b;
      FlattenAppend(a[1..], b);
    }
  }

  lemma {:induction false} FlattenSingle<E>(segment: seq<E>)
    ensures Flatten([segment]) == segment
  {
  }

  /** A log is empty iff every one of its segments is. */
  lemma {:induction false} FlattenEmpty<E>(segments: seq<seq<E>>)
    ensures Flatten(segments) == [] <==> forall i :: 0 <= i < |segments| ==> segments[i] == []
  {
    if |segments| > 0 {
      FlattenEmpty(segments[1..]);
      assert forall i :: 1 <= i < |segments| ==> segments[i] == segments[1..][i - 1];
    }
  }

  /** Processes the items strictly in order; item n is handled after items
      0..n-1 and its log lines follow theirs. */
  function Run<T, E>(items: seq<T>, step: (T, nat) -> (T, seq<E>)): (r: (seq<T>, seq<E>))
    ensures |r.0| == |items|
  {
    if |items| == 0 then ([], [])
    else
      var n := |items| - 1;
      var prior := Run(items[..n], step);
      var last := step(items[n], n);
      (prior.0 + [last.0], prior.1 + last.1)
  }

  /** The log lines each item contributes on its own. */
  function Segments<T, E>(items: seq<T>, step: (T, nat) -> (T, seq<E>)): seq<seq<E>>
  {
    seq(|items|, i requires 0 <= i < |items| => step(items[i], i).1)
  }

  /** The log lines of the items before index k. */
  function LogBefore<T, E>(items: seq<T>, step: (T, nat) -> (T, seq<E>), k: nat): seq<E>
    requires k <= |items|
  {
    Flatten(Segments(items, step)[..k])
  }

  /** The log lines of the items after index k. */
  function LogAfter<T, E>(items: seq<T>, step: (T, nat) -> (T, seq<E>), k: nat): seq<E>
    requires k < |items|
  {
    Flatten(Segments(items, step)[k + 1..])
  }

  /** The fold treats every item as the step treats it alone, and its log is
      the per-item logs laid end to end. */
  lemma {:induction false} RunPerItem<T, E>(items: seq<T>, step: (T, nat) -> (T, seq<E>))
    ensures forall i :: 0 <= i < |items| ==> Run(items, step).0[i] == step(items[i], i).0
    ensures Run(items, step).1 == Flatten(Segments(items, step))
  {
    if |items| > 0 {
      var n := |items| - 1;
      RunPerItem(items[..n], step);
      var last := step(items[n], n).1;
      assert Segments(items, step) == Segments(items[..n], step) + [last];
      FlattenAppend(Segments(items[..n], step), [last]);
      FlattenSingle(last);
    }
  }

  /** A batch whose every item is already a fixed point of the step is left
      unchanged and logs nothing. */
  lemma {:induction false} RunFixpoint<T, E>(items: seq<T>, step: (T, nat) -> (T, seq<E>))
    requires forall i :: 0 <= i < |items| ==> step(items[i], i) == (items[i], [])
    ensures Run(items, step) == (items, [])
  {
    if |items| > 0 {
      var n := |items| - 1;
      RunFixpoint(items[..n], step);
      assert step(items[n], n) == (items[n], []);
      assert items[..n] + [items[n]] == items;
      assert Run(items, step).1 == [] + [];
    }
  }

  /** Two steps that agree on every item but the k-th give two runs that
      agree on every item but the k-th. */
  lemma RunIsolation<T, E>(items: seq<T>, step1: (T, nat) -> (T, seq<E>),
                           step2: (T, nat) -> (T, seq<E>), k: nat)
    requires k < |items|
    requires forall i :: 0 <= i < |items| && i != k ==> step1(items[i], i) == step2(items[i], i)
    ensures forall i :: 0 <= i < |items| && i != k ==> Run(items, step1).0[i] == Run(items, step2).0[i]
  {
    RunPerItem(items, step1);
    RunPerItem(items, step2);
  }

  /** ... and whose logs differ only in the k-th item's segment. */
  lemma RunIsolationLog<T, E>(items: seq<T>, step1: (T, nat) -> (T, seq<E>),
                              step2: (T, nat) -> (T, seq<E>), k: nat)
    requires k < |items|
    requires forall i :: 0 <= i < |items| && i != k ==> step1(items[i], i) == step2(items[i], i)
    ensures Run(items, step1).1 == LogBefore(items, step1, k) + step1(items[k], k).1 + LogAfter(items, step1, k)
    ensures Run(items, step2).1 == LogBefore(items, step1, k) + step2(items[k], k).1 + LogAfter(items, step1, k)
  {
    RunSplitAt(items, step1, k);
    RunSplitAt(items, step2, k);
    SameAround(items, step1, step2, k);
  }

  /** The log of a run is the lines before item k, item k's lines, and the
      lines after it. */
  lemma RunSplitAt<T, E>(items: seq<T>, step: (T, nat) -> (T, seq<E>), k: nat)
    requires k < |items|
    ensures Run(items, step).1 == LogBefore(items, step, k) + step(items[k], k).1 + LogAfter(items, step, k)
  {
    RunPerItem(items, step);
    SplitAt(Segments(items, step), k);
    assert Segments(items, step)[k] == step(items[k], k).1;
  }

  lemma SameAround<T, E>(items: seq<T>, step1: (T, nat) -> (T, seq<E>),
                         step2: (T, nat) -> (T, seq<E>), k: nat)
    requires k < |items|
    requires forall i :: 0 <= i < |items| && i != k ==> step1(items[i], i) == step2(items[i], i)
    ensures Segments(items, step1)[..k] == Segments(items, step2)[..k]
    ensures Segments(items, step1)[k + 1..] == Segments(items, step2)[k + 1..]
  {
  }

  lemma {:induction false} SplitAt<E>(segments: seq<seq<E>>, k: nat)
    requires k < |segments|
    ensures Flatten(segments) == Flatten(segments[..k]) + segments[k] + Flatten(segments[k + 1..])
  {
    var before, here, after := segments[..k], segments[k], segments[k + 1..];
    assert segments[..k + 1] == before + [here];
    assert segments == segments[..k + 1] + after;
    FlattenAppend(before + [here], after);
    FlattenAppend(before, [here]);
    FlattenSingle(here);
  }
}
