/**
 * The supervisor (`main`, src/main.rs:303-323): it runs `entry` again and
 * again. The elapsed time is read in whole seconds, truncated. A crash 61
 * seconds or more after the last recorded error pauses for 30 seconds and
 * records a new error time; a crash fewer than 61 seconds after it (at most
 * 60 whole seconds) is tolerated once, and a second one in a row brings the
 * process down. A run
 * that ends normally clears the "errored" flag. Instants are monotonic-clock
 * readings in nanoseconds; the clock is an input.
 */
module Supervisor {
  import opened Wrappers

  const NanosPerSecond: nat := 1_000_000_000

  /** A crash this many whole seconds or fewer after the last recorded error counts as a repeat. */
  const Window: nat := 60

  /** How a run of `entry` ended: normally, or with an error examined at instant `at`; `resumedAt` is the instant read after the 30-second pause, when there is one. */
  datatype Ending = Restarted | Crashed(at: nat, resumedAt: nat)

  /** The supervisor's two variables. */
  datatype Guard = Guard(lastError: nat, errored: bool)

  /** `last.elapsed().as_secs()` read at `now`: whole seconds, zero when `now` is earlier. */
  function ElapsedSecs(last: nat, now: nat): nat
  {
    if now >= last then (now - last) / NanosPerSecond else 0
  }

  /** One pass of the loop: the guard after it, or None for the panic. */
  function Step(g: Guard, e: Ending): (next: Option<Guard>)
    ensures next.None? <==> e.Crashed? && g.errored && ElapsedSecs(g.lastError, e.at) <= Window
    ensures next.Some? && e.Restarted? ==> next.value == g.(errored := false)
    ensures next.Some? && next.value.lastError != g.lastError ==> e.Crashed? && next.value.lastError == e.resumedAt
  {
    match e
    case Restarted => Some(g.(errored := false))
    case Crashed(at, resumedAt) =>
      if ElapsedSecs(g.lastError, at) > Window then Some(Guard(resumedAt, false))
      else if g.errored then None
      else Some(g.(errored := true))
  }

  /** The guard after a sequence of runs, or None when one of them made the supervisor panic. */
  function After(g: Guard, es: seq<Ending>): Option<Guard>
  {
    if es == [] then Some(g)
    else
      match After(g, es[..|es| - 1])
      case None => None
      case Some(h) => Step(h, es[|es| - 1])
  }

  /** The loop of `main` over the given run endings: the index of the run whose crash panics, if any. */
  method Supervise(start: nat, es: seq<Ending>) returns (panicked: Option<nat>)
    ensures panicked.None? ==> After(Guard(start, false), es).Some?
    ensures panicked.Some? ==>
              && panicked.value < |es|
              && After(Guard(start, false), es[..panicked.value]).Some?
              && After(Guard(start, false), es[..panicked.value + 1]).None?
  {
    var lastError := start;
    var errored := false;
    for i := 0 to |es|
      invariant After(Guard(start, false), es[..i]) == Some(Guard(lastError, errored))
    {
      assert es[..i + 1][..i] == es[..i];
      match es[i] {
        case Crashed(at, resumedAt) =>
          if ElapsedSecs(lastError, at) > Window {
            lastError := resumedAt;
            errored := false;
          } else if errored {
            return Some(i);
          } else {
            errored := true;
          }
        case Restarted =>
          errored := false;
      }
    }
    assert es[..|es|] == es;
    return None;
  }

  /** A panic stops everything: no later run changes that. */
  lemma {:induction false} PanicIsFinal(g: Guard, es: seq<Ending>, more: seq<Ending>)
    requires After(g, es).None?
    ensures After(g, es + more).None?
    decreases |more|
  {
    if more == [] {
      assert es + more == es;
    } else {
      var n := |more| - 1;
      PanicIsFinal(g, es, more[..n]);
      assert (es + more)[..|es + more| - 1] == es + more[..n];
    }
  }

  /**
   * The flag is set exactly after a crash within the window of a guard that
   * was not set, and that crash left the recorded error time alone.
   */
  lemma ErroredMeans(g: Guard, es: seq<Ending>)
    requires After(g, es).Some? && es != []
    ensures var n := |es| - 1;
            var before := After(g, es[..n]);
            && before.Some?
            && (After(g, es).value.errored <==>
                  && es[n].Crashed?
                  && !before.value.errored
                  && ElapsedSecs(before.value.lastError, es[n].at) <= Window)
            && (After(g, es).value.errored ==> After(g, es).value.lastError == before.value.lastError)
  {
  }

  /**
   * The supervisor panics at run `k` exactly when run `k` and run `k - 1`
   * both crashed at most 60 whole seconds after the same recorded error time, the
   * earlier one with the flag clear.
   */
  lemma PanicMeans(start: nat, es: seq<Ending>, k: nat)
    requires k < |es| && After(Guard(start, false), es[..k]).Some?
    ensures After(Guard(start, false), es[..k + 1]).None? <==>
              && k >= 1
              && After(Guard(start, false), es[..k - 1]).Some?
              && var g := After(Guard(start, false), es[..k - 1]).value;
              && !g.errored
              && es[k - 1].Crashed? && ElapsedSecs(g.lastError, es[k - 1].at) <= Window
              && es[k].Crashed? && ElapsedSecs(g.lastError, es[k].at) <= Window
  {
    var g0 := Guard(start, false);
    assert es[..k + 1][..k] == es[..k];
    if k >= 1 {
      assert es[..k][..k - 1] == es[..k - 1];
      ErroredMeans(g0, es[..k]);
    }
  }

  /** Without two crashes in a row the supervisor never panics. */
  lemma {:induction false} NoPanicWithoutRepeat(start: nat, es: seq<Ending>)
    requires forall k :: 1 <= k < |es| ==> !(es[k - 1].Crashed? && es[k].Crashed?)
    ensures After(Guard(start, false), es).Some?
    ensures es != [] && es[|es| - 1].Restarted? ==> !After(Guard(start, false), es).value.errored
  {
    if es != [] {
      var n := |es| - 1;
      NoPanicWithoutRepeat(start, es[..n]);
      if n >= 1 && es[n].Crashed? {
        assert es[n - 1].Restarted?;
        assert es[..n][..n - 1] == es[..n - 1];
        var h := After(Guard(start, false), es[..n]).value;
        assert !h.errored;
      }
    }
  }

  /** A crash 61 seconds or more after the recorded error is always survived, and restarts the window at the resume instant. */
  lemma LateCrashForgiven(g: Guard, at: nat, resumedAt: nat)
    requires at >= g.lastError + (Window + 1) * NanosPerSecond
    ensures Step(g, Crashed(at, resumedAt)) == Some(Guard(resumedAt, false))
  {
  }

  /** Whole seconds are truncated: a repeated crash 60.5 seconds after the recorded error still panics. */
  lemma HalfSecondPastWindowPanics(resumedAt: nat)
    ensures ElapsedSecs(0, 60_500_000_000) == Window
    ensures Step(Guard(0, true), Crashed(60_500_000_000, resumedAt)) == None
  {
  }
}
