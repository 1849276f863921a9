/**
 * What the four polling jobs share: the cancellation signal as the loop
 * sees it, the `delayIf` pacing rule, and the error log entries.
 */
module JobSupport {
  import opened Wrappers
  import opened Rows

  /**
   * An `AbortSignal` as a job observes it: already aborted when `execute`
   * starts, or first seen aborted by the check made before item number
   * `abortedBefore`. An aborted signal stays aborted.
   */
  datatype Signal = Signal(abortedAtStart: bool, abortedBefore: Option<nat>)
  {
    /** `signal.aborted` as read by the check before item `index`. */
    predicate AbortedAt(index: nat)
    {
      abortedAtStart || (abortedBefore.Some? && abortedBefore.value <= index)
    }
  }

  /** How many of `n` items the loop starts before a check finds the signal aborted. */
  function Started(n: nat, s: Signal): (k: nat)
    ensures k <= n
    ensures forall i :: 0 <= i < k ==> !s.AbortedAt(i)
    ensures k < n ==> s.AbortedAt(k)
  {
    if s.abortedAtStart then 0
    else if s.abortedBefore.Some? && s.abortedBefore.value < n then s.abortedBefore.value
    else n
  }

  /** `delayIf(() => index < n - 1, signal)`: the 5 s pause follows every item but the last. */
  predicate DelayAfter(index: nat, n: nat)
  {
    index < n - 1
  }

  /** The pauses taken after the first `k` of `n` items. */
  function Delays(k: nat, n: nat): nat
  {
    if k == 0 then 0 else Delays(k - 1, n) + (if DelayAfter(k - 1, n) then 1 else 0)
  }

  /**
   * A loop that stops early paused after every item it ran; one that ran
   * all `n` items paused `n - 1` times, so never after the last.
   */
  lemma {:induction false} DelaysCount(k: nat, n: nat)
    requires k <= n
    ensures Delays(k, n) == if k == n && n > 0 then n - 1 else k
    ensures Delays(k, n) <= k
    ensures n > 0 ==> Delays(k, n) < n
  {
    if k > 0 {
      DelaysCount(k - 1, n);
    }
  }

  /** A `log.error` entry: the item being processed and what was thrown. */
  datatype Failure<T> = Failure(item: T, error: Error)

  /** The observable state of a run: the tables, the control statements issued, the error log, the pauses. */
  datatype Run<T> = Run(tables: Tables, executed: seq<string>, failures: seq<Failure<T>>, delays: nat)

  /** Processing `items` in order, item `i` by `step(_, items[i], i)`. */
  function Steps<T>(s: Run<T>, step: (Run<T>, T, nat) -> Run<T>, items: seq<T>): Run<T>
  {
    if |items| == 0 then s
    else
      var i := |items| - 1;
      step(Steps(s, step, items[..i]), items[i], i)
  }

  /** A step that pauses after every item but the last of `n`. */
  ghost predicate Paced<T(!new)>(step: (Run<T>, T, nat) -> Run<T>, n: nat)
  {
    forall s: Run<T>, x: T, i: nat :: step(s, x, i).delays == s.delays + (if DelayAfter(i, n) then 1 else 0)
  }

  /** A step that logs at most one failure, naming its own item. */
  ghost predicate LogsItself<T(!new)>(step: (Run<T>, T, nat) -> Run<T>)
  {
    forall s: Run<T>, x: T, i: nat ::
      var f := step(s, x, i).failures;
      f == s.failures || (|f| == |s.failures| + 1 && f[..|s.failures|] == s.failures && f[|s.failures|].item == x)
  }

  /** A step whose only control statements are one transaction, committed or rolled back, or none. */
  ghost predicate Transactional<T(!new)>(step: (Run<T>, T, nat) -> Run<T>)
  {
    forall s: Run<T>, x: T, i: nat ::
      var e := step(s, x, i).executed;
      e == s.executed || e == s.executed + ["begin immediate", "commit"] || e == s.executed + ["begin immediate", "rollback"]
  }

  /** A paced run pauses once per item it processed, except after the last of the `n` selected. */
  lemma {:induction false} StepsDelays<T(!new)>(s: Run<T>, step: (Run<T>, T, nat) -> Run<T>, items: seq<T>, n: nat)
    requires Paced(step, n)
    ensures Steps(s, step, items).delays == s.delays + Delays(|items|, n)
  {
    if |items| > 0 {
      StepsDelays(s, step, items[..|items| - 1], n);
    }
  }

  /** Every failure a run logs names a processed item, and at most one is logged per item. */
  lemma {:induction false} StepsFailures<T(!new)>(s: Run<T>, step: (Run<T>, T, nat) -> Run<T>, items: seq<T>)
    requires LogsItself(step)
    ensures var f := Steps(s, step, items).failures;
      && |s.failures| <= |f| <= |s.failures| + |items| && f[..|s.failures|] == s.failures
      && forall j :: |s.failures| <= j < |f| ==> f[j].item in items
  {
    if |items| > 0 {
      var i := |items| - 1;
      StepsFailures(s, step, items[..i]);
      var before := Steps(s, step, items[..i]).failures;
      var f := Steps(s, step, items).failures;
      forall j | |s.failures| <= j < |f| ensures f[j].item in items {
        if j < |before| {
          assert f[j] == before[j];
          assert before[j].item in items[..i];
        } else {
          assert f[j].item == items[i];
        }
      }
    }
  }

  /**
   * While the loop of a transactional run goes, only transaction steps
   * are issued, so the checkpoint appended after it is the run's only one.
   */
  lemma {:induction false} StepsStatements<T(!new)>(s: Run<T>, step: (Run<T>, T, nat) -> Run<T>, items: seq<T>)
    requires Transactional(step)
    ensures var e := Steps(s, step, items).executed;
      && |s.executed| <= |e| && e[..|s.executed|] == s.executed
      && forall j :: |s.executed| <= j < |e| ==> e[j] in {"begin immediate", "commit", "rollback"}
  {
    if |items| > 0 {
      StepsStatements(s, step, items[..|items| - 1]);
    }
  }
}
