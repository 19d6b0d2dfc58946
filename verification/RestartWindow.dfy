/** Sliding-window crash-loop detection (internal/supervisor/backoff.go): the
    pruned window, and the full history it stands for. */
module RestartWindow {

  type Time = int

  /** The window without its leading entries that are not after `cutoff`. */
  function DropOld(s: seq<Time>, cutoff: Time): seq<Time> {
    if s == [] || s[0] > cutoff then s else DropOld(s[1..], cutoff)
  }

  function Pruned(s: seq<Time>, window: int, now: Time): seq<Time> {
    if window <= 0 then s else DropOld(s, now - window)
  }

  /** The window after one failure is charged at `now`. */
  function Recorded(s: seq<Time>, window: int, now: Time): seq<Time> {
    Pruned(s, window, now) + [now]
  }

  class RestartWindow {
    const max: int
    const window: int
    var events: seq<Time>

    constructor (max: int, window: int)
      ensures this.max == max && this.window == window && events == []
    {
      this.max, this.window, this.events := max, window, [];
    }

    /** Charge a failure at `now`; the answer is whether the budget still holds. */
    method Record(now: Time) returns (ok: bool)
      modifies this
      ensures events == Recorded(old(events), window, now)
      ensures ok <==> |events| <= max
    {
      Prune(now);
      events := events + [now];
      ok := |events| <= max;
    }

    /** Drop what has aged out. */
    method Prune(now: Time)
      modifies this
      ensures events == Pruned(old(events), window, now)
    {
      if window <= 0 { return; }
      var cutoff := now - window;
      var i := 0;
      while i < |events|
        invariant 0 <= i <= |events| && events == old(events)
        invariant DropOld(events, cutoff) == DropOld(events[i..], cutoff)
      {
        assert events[i..][1..] == events[i+1..];
        if events[i] > cutoff { break; }
        i := i + 1;
      }
      if i > 0 {
        events := events[i..];
      }
    }

    method Count(now: Time) returns (n: nat)
      modifies this
      ensures events == Pruned(old(events), window, now) && n == |events|
    {
      Prune(now);
      n := |events|;
    }

    method Reset()
      modifies this
      ensures events == []
    {
      events := [];
    }
  }

  // ---- the history since the last reset ----

  ghost predicate Nondecreasing(s: seq<Time>) {
    forall i, j :: 0 <= i <= j < |s| ==> s[i] <= s[j]
  }

  /** The window once every failure of `hist` has been charged, from a reset on. */
  ghost function WindowAfter(hist: seq<Time>, window: int): seq<Time> {
    if hist == [] then []
    else Recorded(WindowAfter(hist[..|hist|-1], window), window, hist[|hist|-1])
  }

  /** Every charged failure after `cutoff`, in order, however long ago the window was pruned. */
  ghost function After(hist: seq<Time>, cutoff: Time): seq<Time> {
    if hist == [] then []
    else
      var n := |hist| - 1;
      After(hist[..n], cutoff) + if hist[n] > cutoff then [hist[n]] else []
  }

  ghost function Last(hist: seq<Time>): Time
    requires hist != []
  {
    hist[|hist|-1]
  }

  lemma {:induction false} AfterIsPruned(hist: seq<Time>, c: Time, c': Time)
    requires Nondecreasing(hist) && c <= c'
    ensures DropOld(After(hist, c), c') == After(hist, c')
  {
    if hist != [] {
      var n := |hist| - 1;
      AfterIsPruned(hist[..n], c, c');
      DropOldAppend(After(hist[..n], c), hist[n], c');
      if hist[n] <= c' {
        NoneAfter(hist[..n], c');
        assert After(hist[..n], c) + [] == After(hist[..n], c);
      }
    }
  }

  lemma {:induction false} NoneAfter(hist: seq<Time>, c: Time)
    requires Nondecreasing(hist) && (hist != [] ==> Last(hist) <= c)
    ensures After(hist, c) == []
  {
    if hist != [] { NoneAfter(hist[..|hist|-1], c); }
  }

  lemma {:induction false} DropOldAppend(s: seq<Time>, t: Time, c: Time)
    ensures DropOld(s + [t], c) ==
      if DropOld(s, c) == [] && t <= c then [] else DropOld(s, c) + [t]
  {
    if s == [] {
      assert DropOld([t], c) == if t <= c then DropOld([], c) else [t];
    } else if s[0] <= c {
      assert (s + [t])[1..] == s[1..] + [t];
      DropOldAppend(s[1..], t, c);
    }
  }

  /** With a clock that never goes back, the pruned window holds exactly the
      failures of the whole history that fall inside the window, so its verdict
      is the one a full recount would give. */
  lemma {:induction false} WindowIsRecount(hist: seq<Time>, window: int)
    requires Nondecreasing(hist) && hist != []
    ensures WindowAfter(hist, window) == if window <= 0 then hist else After(hist, Last(hist) - window)
  {
    var n := |hist| - 1;
    var before := hist[..n];
    if n > 0 {
      assert Nondecreasing(before) && Last(before) <= Last(hist);
      hide Nondecreasing;
      WindowIsRecount(before, window);
      if window > 0 {
        AfterIsPruned(before, Last(before) - window, Last(hist) - window);
      } else {
        assert hist == before + [hist[n]];
      }
    }
  }

  // ---- the budget over any span ----

  /** Whether charging the last failure of `hist` keeps the module restartable. */
  ghost predicate WithinBudget(hist: seq<Time>, window: int, max: int)
    requires hist != []
  {
    |WindowAfter(hist, window)| <= max
  }

  /** How many failures charged after `a` left the module restartable. */
  ghost function Restartable(hist: seq<Time>, window: int, max: int, a: Time): nat {
    if hist == [] then 0
    else
      var n := |hist| - 1;
      Restartable(hist[..n], window, max, a) +
        if hist[n] > a && WithinBudget(hist, window, max) then 1 else 0
  }

  lemma {:induction false} RestartableAreAfter(hist: seq<Time>, window: int, max: int, a: Time, c: Time)
    requires c <= a
    ensures Restartable(hist, window, max, a) <= |After(hist, c)|
  {
    if hist != [] { RestartableAreAfter(hist[..|hist|-1], window, max, a, c); }
  }

  /** However the failures fall, at most `max` of those inside one span of the
      window's length end restartable; the span is (a, a + window], and `hist`
      is everything charged up to its end. */
  lemma {:induction false} SpanBudget(hist: seq<Time>, window: int, max: int, a: Time)
    requires Nondecreasing(hist) && window > 0 && max >= 0
    requires forall t :: t in hist ==> t <= a + window
    ensures Restartable(hist, window, max, a) <= max
  {
    if hist != [] {
      var n := |hist| - 1;
      if hist[n] > a && WithinBudget(hist, window, max) {
        WindowIsRecount(hist, window);
        assert hist[n] in hist;
        RestartableAreAfter(hist, window, max, a, Last(hist) - window);
      } else {
        assert forall t :: t in hist[..n] ==> t in hist;
        SpanBudget(hist[..n], window, max, a);
      }
    }
  }

  /** Charging one more failure is one more `Recorded`. */
  lemma ChargeExtendsHistory(hist: seq<Time>, window: int, now: Time)
    requires Nondecreasing(hist) && (hist != [] ==> Last(hist) <= now)
    ensures WindowAfter(hist + [now], window) == Recorded(WindowAfter(hist, window), window, now)
    ensures Nondecreasing(hist + [now]) && Last(hist + [now]) == now
  {
    assert (hist + [now])[..|hist|] == hist;
  }
}
