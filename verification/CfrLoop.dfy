/**
 The deadline-aware solver loop (gto-solver/src/lib.rs, `run_cfr`). The game is seen through
 the exploitability of its average strategy after each number of iterations; time through
 the durations of the three kinds of pass, in nanoseconds.
 */
module CfrLoop {
  import opened Outcomes

  datatype Stop = Converged | IterationCap | TimeBudget

  datatype Game = Game(
    exploitability: nat -> real,   // of the average strategy after k iterations
    iterate: nat -> nat,           // duration of the iteration that follows k others
    measure: nat -> nat,           // duration of an exploitability pass after k iterations
    finalize: nat)                 // duration of the closing counterfactual pass

  datatype CfrRun = CfrRun(exploitability: real, iterations: nat, stop: Stop, finished: nat)

  /** The slowest of the first `k` iterations. */
  function SlowestIteration(g: Game, k: nat): nat {
    if k == 0 then 0 else Max(SlowestIteration(g, k - 1), g.iterate(k - 1))
  }

  /** The slowest exploitability pass among those made every tenth iteration, up to `k`. */
  function SlowestMeasure(g: Game, k: nat): Option<nat> {
    if k == 0 then None
    else
      var before := SlowestMeasure(g, k - 1);
      if k % 10 != 0 then before
      else
        match before
        case None => Some(g.measure(k))
        case Some(c) => Some(Max(c, g.measure(k)))
  }

  /** Time reserved for one more iteration, a measurement and `finalize`, scaled by 5/4. */
  function Need(slowest: nat, measured: Option<nat>): nat {
    var closing := slowest + (match measured case Some(c) => c case None => slowest) + slowest;
    closing * 5 / 4
  }

  /** The loop variables: the clock, the passes made, and the costs observed so far. */
  datatype Progress = Progress(
    now: nat,
    iterations: nat,
    exploitability: real,
    measuredAt: Option<nat>,
    iterCost: nat,
    exploitCost: Option<nat>)

  /** The time when `k` iterations, and every tenth time a measurement, have been made. */
  function Clock(g: Game, start: nat, k: nat): nat {
    if k == 0 then start else Clock(g, start, k - 1) + g.iterate(k - 1) + if k % 10 == 0 then g.measure(k) else 0
  }

  predicate Measured(k: nat) { k > 0 && k % 10 == 0 }

  /** A measurement after `k` iterations meets the target. */
  predicate Reached(g: Game, target: real, k: nat) { Measured(k) && g.exploitability(k) <= target }

  /** After `k` iterations the time reserved for another one would pass the deadline. */
  predicate OverBudget(g: Game, start: nat, deadline: Option<nat>, k: nat) {
    k > 0 && deadline.Some? && Clock(g, start, k) + Need(SlowestIteration(g, k), SlowestMeasure(g, k)) > deadline.value
  }

  ghost predicate Tracks(g: Game, start: nat, p: Progress) {
    && p.now == Clock(g, start, p.iterations)
    && p.iterCost == SlowestIteration(g, p.iterations)
    && p.exploitCost == SlowestMeasure(g, p.iterations)
    && (p.measuredAt == Some(p.iterations) <==> Measured(p.iterations))
    && (p.measuredAt.Some? ==> p.measuredAt.value <= p.iterations)
    && (Measured(p.iterations) ==> p.exploitability == g.exploitability(p.iterations))
  }

  /** Nothing stopped the loop before `n` iterations: no target, no deadline and no cancellation. */
  ghost predicate Undisturbed(g: Game, start: nat, target: real, deadline: Option<nat>, cancelled: nat -> bool, n: nat) {
    forall k: nat :: k < n ==> Continues(g, start, target, deadline, cancelled, k)
  }

  ghost predicate Continues(g: Game, start: nat, target: real, deadline: Option<nat>, cancelled: nat -> bool, k: nat) {
    !Reached(g, target, k) && !OverBudget(g, start, deadline, k) && !cancelled(Clock(g, start, k))
  }

  /** One iteration, and every tenth time an exploitability pass. */
  method Iterate(g: Game, start: nat, p: Progress, cancelled: nat -> bool) returns (q: Option<Progress>)
    requires Tracks(g, start, p)
    ensures q.None? ==> Measured(p.iterations + 1) && cancelled(p.now + g.iterate(p.iterations))
    ensures q.Some? ==> Tracks(g, start, q.value) && q.value.iterations == p.iterations + 1
  {
    var n := p.iterations + 1;
    var now := p.now + g.iterate(p.iterations);
    var next := p.(now := now, iterations := n, iterCost := Max(p.iterCost, g.iterate(p.iterations)));
    if n % 10 != 0 { return Some(next); }
    if cancelled(now) { return None; }
    q := Some(next.(now := now + g.measure(n),
                    exploitability := g.exploitability(n),
                    exploitCost := match p.exploitCost
                                   case None => Some(g.measure(n))
                                   case Some(c) => Some(Max(c, g.measure(n))),
                    measuredAt := Some(n)));
  }

  /** The loop up to its break or cap, with the stop reason it found. */
  method Improve(g: Game, maxIterations: nat, target: real, deadline: Option<nat>, start: nat, cancelled: nat -> bool)
    returns (done: Option<(Progress, Stop)>)
    ensures done.None? ==> exists t: nat :: cancelled(t)
    ensures done.Some? ==>
              var (p, stop) := done.value;
              && Tracks(g, start, p) && p.iterations <= maxIterations
              && Undisturbed(g, start, target, deadline, cancelled, p.iterations)
              && (stop.Converged? <==> Reached(g, target, p.iterations))
              && (stop.TimeBudget? ==> p.iterations < maxIterations && OverBudget(g, start, deadline, p.iterations))
              && (stop.IterationCap? ==> p.iterations == maxIterations)
  {
    var p := Progress(start, 0, 0.0, None, 0, None);
    while p.iterations < maxIterations
      invariant p.iterations <= maxIterations && Tracks(g, start, p) && !Reached(g, target, p.iterations)
      invariant Undisturbed(g, start, target, deadline, cancelled, p.iterations)
      decreases maxIterations - p.iterations
    {
      if cancelled(p.now) { return None; }
      if p.iterations > 0 && deadline.Some? && p.now + Need(p.iterCost, p.exploitCost) > deadline.value {
        return Some((p, TimeBudget));
      }
      assert Continues(g, start, target, deadline, cancelled, p.iterations);
      var q := Iterate(g, start, p, cancelled);
      if q.None? { return None; }
      p := q.value;
      if p.measuredAt == Some(p.iterations) && p.exploitability <= target {
        return Some((p, Converged));
      }
    }
    done := Some((p, IterationCap));
  }

  /** The number of iterations a run makes: the first after which it is to stop. */
  ghost predicate StopsAt(g: Game, maxIterations: nat, target: real, deadline: Option<nat>, start: nat, n: nat) {
    && n <= maxIterations
    && (n == maxIterations || Reached(g, target, n) || OverBudget(g, start, deadline, n))
    && forall k: nat :: k < n ==> !Reached(g, target, k) && !OverBudget(g, start, deadline, k)
  }

  /** Why a run that stopped after `n` iterations says it did. */
  function Reason(g: Game, maxIterations: nat, target: real, n: nat): Stop {
    if g.exploitability(n) <= target then Converged else if n == maxIterations then IterationCap else TimeBudget
  }

  /** When a run of `n` iterations is over: the returned strategy is measured if it was not yet, and finalized. */
  function Finish(g: Game, start: nat, n: nat): nat {
    Clock(g, start, n) + (if Measured(n) then 0 else g.measure(n)) + g.finalize
  }

  /**
   Runs the loop from time `start`; `cancelled(t)` says whether cancellation was requested by
   time `t`. A run that is not cancelled stops after exactly the iterations that target, deadline
   and cap allow, and reports the exploitability of the strategy returned and the exact reason.
   */
  method RunCfr(g: Game, maxIterations: nat, target: real, deadline: Option<nat>, start: nat, cancelled: nat -> bool)
    returns (run: Option<CfrRun>)
    ensures run.None? ==> exists t: nat :: cancelled(t)
    ensures run.Some? ==>
              var n := run.value.iterations;
              && StopsAt(g, maxIterations, target, deadline, start, n)
              && run.value == CfrRun(g.exploitability(n), n, Reason(g, maxIterations, target, n), Finish(g, start, n))
              && Undisturbed(g, start, target, deadline, cancelled, n)
              && !cancelled(Finish(g, start, n) - g.finalize)
  {
    var done := Improve(g, maxIterations, target, deadline, start, cancelled);
    if done.None? { return None; }
    var (p, stop) := done.value;
    var n, now, exploitability := p.iterations, p.now, p.exploitability;
    forall k: nat | k < n ensures !Reached(g, target, k) && !OverBudget(g, start, deadline, k) {
      assert Continues(g, start, target, deadline, cancelled, k);
    }
    if p.measuredAt != Some(n) {
      if cancelled(now) { return None; }
      exploitability := g.exploitability(n);
      now := now + g.measure(n);
      if exploitability <= target {
        stop := Converged;
      }
    }
    if cancelled(now) { return None; }
    run := Some(CfrRun(exploitability, n, stop, now + g.finalize));
  }

  /** The reserve is five quarters of two iterations and a measurement at the slowest seen so far, rounded down. */
  lemma NeedIsScaled(slowest: nat, measured: Option<nat>)
    ensures var passes := 2 * slowest + if measured.Some? then measured.value else slowest;
            4 * Need(slowest, measured) <= 5 * passes < 4 * Need(slowest, measured) + 4
  {
  }

  /** The costs it starts from are the largest of those observed, whenever there was one. */
  lemma {:induction false} SlowestSoFar(g: Game, k: nat, i: nat)
    requires i < k
    ensures g.iterate(i) <= SlowestIteration(g, k)
    ensures Measured(i + 1) ==> SlowestMeasure(g, k).Some? && g.measure(i + 1) <= SlowestMeasure(g, k).value
  {
    if i < k - 1 { SlowestSoFar(g, k - 1, i); }
  }

  lemma {:induction false} SlowestWasSeen(g: Game, k: nat)
    ensures k > 0 ==> exists i: nat :: i < k && g.iterate(i) == SlowestIteration(g, k)
    ensures SlowestMeasure(g, k).Some? ==> exists i: nat :: Measured(i) && i <= k && g.measure(i) == SlowestMeasure(g, k).value
  {
    if k > 0 {
      SlowestWasSeen(g, k - 1);
      var last := k - 1;
      assert SlowestIteration(g, k) == Max(SlowestIteration(g, last), g.iterate(last));
      if k % 10 == 0 && SlowestMeasure(g, k).value == g.measure(k) { assert Measured(k); }
    }
  }

  /** There is one such number, so a run is determined by its inputs. */
  lemma StopsOnce(g: Game, maxIterations: nat, target: real, deadline: Option<nat>, start: nat, n: nat, m: nat)
    requires StopsAt(g, maxIterations, target, deadline, start, n) && StopsAt(g, maxIterations, target, deadline, start, m)
    ensures n == m
  {
  }

  /**
   If the last iteration, one measurement and `finalize` fit the estimate made before that
   iteration, the run ends by the deadline.
   */
  lemma EndsByDeadline(g: Game, maxIterations: nat, target: real, deadline: nat, start: nat, n: nat)
    requires StopsAt(g, maxIterations, target, Some(deadline), start, n) && n >= 2
    requires g.iterate(n - 1) + g.measure(n) + g.finalize <= Need(SlowestIteration(g, n - 1), SlowestMeasure(g, n - 1))
    ensures Finish(g, start, n) <= deadline
  {
    assert !OverBudget(g, start, Some(deadline), n - 1);
  }
}
