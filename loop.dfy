/**
 * The generation loop as a function of the insert outcomes the store
 * returns: the specification that the `Run` class is proved against, and the
 * properties of whole runs.
 */
module Loop {
  import opened Wrappers
  import opened Settings
  import opened Policy

  /** How a run ends: stopped by a limit (exit with the success code), or still going. */
  datatype Ending = Stopped(reason: StopReason) | Pending

  /**
   * A run: the counters at the end, how it ended, and the counters reported
   * by each summary written on the cadence. A stopped run also writes one
   * last summary, of `final`, just before it exits.
   */
  datatype Trace = Trace(final: Counters, ending: Ending, progress: seq<Counters>)

  /**
   * Runs cycles from `c`, one per outcome in `inserts` (true: the insert
   * succeeded). When the outcomes run out the run is `Pending`: its next
   * cycle has passed its pre-checks and waits on the store, and `final` holds
   * the counters as of that last pre-check, before the waiting cycle's own
   * increments. A run of the
   * program is `Simulate(cfg, Initial, inserts)`.
   */
  function Simulate(cfg: Config, c: Counters, inserts: seq<bool>): Trace
    decreases |inserts|
  {
    match Decide(c, cfg)
    case Stop(reason) => Trace(c, Stopped(reason), [])
    case Proceed(summarize) =>
      var here := if summarize then [c] else [];
      if |inserts| == 0 then Trace(c, Pending, here)
      else
        var rest := Simulate(cfg, Advance(c, inserts[0]), inserts[1..]);
        Trace(rest.final, rest.ending, here + rest.progress)
  }

  /** A run whose pre-checks stop it ends where it is. */
  lemma SimulateStops(cfg: Config, c: Counters, inserts: seq<bool>)
    requires Decide(c, cfg).Stop?
    ensures Simulate(cfg, c, inserts) == Trace(c, Stopped(Decide(c, cfg).reason), [])
  {
  }

  /** A run that passes its pre-checks with no outcome to consume waits on the store. */
  lemma SimulateWaits(cfg: Config, c: Counters)
    requires Decide(c, cfg).Proceed?
    ensures Simulate(cfg, c, []) == Trace(c, Pending, if Decide(c, cfg).summarize then [c] else [])
  {
  }

  /** A run that passes its pre-checks takes one cycle and goes on from there. */
  lemma SimulateProceeds(cfg: Config, c: Counters, inserts: seq<bool>)
    requires Decide(c, cfg).Proceed? && |inserts| > 0
    ensures var rest := Simulate(cfg, Advance(c, inserts[0]), inserts[1..]);
      Simulate(cfg, c, inserts) ==
      Trace(rest.final, rest.ending, (if Decide(c, cfg).summarize then [c] else []) + rest.progress)
  {
  }

  /** The counters after the first n cycles from `c`, every one of them having run. */
  function After(c: Counters, inserts: seq<bool>, n: nat): Counters
    requires n <= |inserts|
    decreases n
  {
    if n == 0 then c else Advance(After(c, inserts, n - 1), inserts[n - 1])
  }

  /** The summaries the pre-checks of the first n cycles from `c` write on the cadence. */
  function CadenceSummaries(cfg: Config, c: Counters, inserts: seq<bool>, n: nat): seq<Counters>
    requires n <= |inserts|
    decreases n
  {
    if n == 0 then []
    else
      var s := After(c, inserts, n - 1);
      CadenceSummaries(cfg, c, inserts, n - 1) + if SummaryDue(s.cycles, cfg.limits.summarizeEvery) then [s] else []
  }

  /** The pre-checks of each of the first n cycles from `c` let that cycle run. */
  predicate AllProceed(cfg: Config, c: Counters, inserts: seq<bool>, n: nat)
    requires n <= |inserts|
    decreases n
  {
    n == 0 || (AllProceed(cfg, c, inserts, n - 1) && Decide(After(c, inserts, n - 1), cfg).Proceed?)
  }

  /** Running one cycle first and then n more is running n + 1 cycles. */
  lemma {:induction false} AfterFirst(c: Counters, inserts: seq<bool>, n: nat)
    requires n < |inserts|
    ensures After(Advance(c, inserts[0]), inserts[1..], n) == After(c, inserts, n + 1)
    decreases n
  {
    if n > 0 {
      AfterFirst(c, inserts, n - 1);
    }
  }

  lemma {:induction false} CadenceSummariesFirst(cfg: Config, c: Counters, inserts: seq<bool>, n: nat)
    requires n < |inserts|
    ensures CadenceSummaries(cfg, c, inserts, n + 1) ==
      (if SummaryDue(c.cycles, cfg.limits.summarizeEvery) then [c] else []) +
      CadenceSummaries(cfg, Advance(c, inserts[0]), inserts[1..], n)
    decreases n
  {
    if n > 0 {
      CadenceSummariesFirst(cfg, c, inserts, n - 1);
      AfterFirst(c, inserts, n - 1);
    }
  }

  lemma {:induction false} AllProceedFirst(cfg: Config, c: Counters, inserts: seq<bool>, n: nat)
    requires n < |inserts|
    ensures AllProceed(cfg, c, inserts, n + 1) <==>
      Decide(c, cfg).Proceed? && AllProceed(cfg, Advance(c, inserts[0]), inserts[1..], n)
    decreases n
  {
    if n > 0 {
      AllProceedFirst(cfg, c, inserts, n - 1);
      AfterFirst(c, inserts, n - 1);
    }
  }

  /** Concatenation is associative; a small step kept out of larger contexts. */
  lemma AppendAssociative<T>(a: seq<T>, b: seq<T>, c: seq<T>)
    ensures a + (b + c) == (a + b) + c
  {
  }

  /**
   * A run is pinned down by where it ends: if the pre-checks of the first n
   * cycles from `c` all let the cycle run, and those of the next one stop the
   * run (or there is no outcome left for it), then `Simulate` ends there.
   */
  lemma {:induction false} SimulateEndsAt(cfg: Config, c: Counters, inserts: seq<bool>, n: nat)
    requires n <= |inserts|
    requires AllProceed(cfg, c, inserts, n)
    requires Decide(After(c, inserts, n), cfg).Stop? || n == |inserts|
    ensures Simulate(cfg, c, inserts).final == After(c, inserts, n)
    ensures var d := Decide(After(c, inserts, n), cfg);
      Simulate(cfg, c, inserts).ending == if d.Stop? then Stopped(d.reason) else Pending
    decreases n
  {
    if n > 0 {
      var next := Advance(c, inserts[0]);
      AllProceedFirst(cfg, c, inserts, n - 1);
      AfterFirst(c, inserts, n - 1);
      SimulateEndsAt(cfg, next, inserts[1..], n - 1);
    }
  }

  /**
   * The same run writes the summaries due on the cadence on the way, and one
   * more when its last pre-checks let a cycle run on the cadence.
   */
  lemma {:induction false} SimulateSummariesAt(cfg: Config, c: Counters, inserts: seq<bool>, n: nat)
    requires n <= |inserts|
    requires AllProceed(cfg, c, inserts, n)
    requires Decide(After(c, inserts, n), cfg).Stop? || n == |inserts|
    ensures var last := After(c, inserts, n);
      Simulate(cfg, c, inserts).progress ==
      CadenceSummaries(cfg, c, inserts, n) + if Decide(last, cfg) == Proceed(true) then [last] else []
    decreases n
  {
    if n > 0 {
      var next := Advance(c, inserts[0]);
      AllProceedFirst(cfg, c, inserts, n - 1);
      AfterFirst(c, inserts, n - 1);
      SimulateSummariesAt(cfg, next, inserts[1..], n - 1);
      CadenceSummariesFirst(cfg, c, inserts, n - 1);
      var here := if SummaryDue(c.cycles, cfg.limits.summarizeEvery) then [c] else [];
      var later := CadenceSummaries(cfg, next, inserts[1..], n - 1);
      var last := After(c, inserts, n);
      var tail := if Decide(last, cfg) == Proceed(true) then [last] else [];
      AppendAssociative(here, later, tail);
    }
  }

  /** The number of occurrences of `b` in `s`. */
  function Count(b: bool, s: seq<bool>): nat {
    if s == [] then 0 else (if s[0] == b then 1 else 0) + Count(b, s[1..])
  }

  /** The cycle numbers of a list of summaries. */
  function CyclesOf(summaries: seq<Counters>): seq<nat> {
    if summaries == [] then [] else [summaries[0].cycles] + CyclesOf(summaries[1..])
  }

  lemma {:induction false} CyclesOfAppend(a: seq<Counters>, b: seq<Counters>)
    ensures CyclesOf(a + b) == CyclesOf(a) + CyclesOf(b)
    decreases |a|
  {
    if a == [] {
      assert a + b == b;
    } else {
      assert (a + b)[0] == a[0] && (a + b)[1..] == a[1..] + b;
      CyclesOfAppend(a[1..], b);
    }
  }

  /** Counting over a prefix one longer than `j`. */
  lemma CountPrefix(b: bool, s: seq<bool>, j: nat)
    requires j < |s|
    ensures Count(b, s[..j + 1]) == (if s[0] == b then 1 else 0) + Count(b, s[1..][..j])
  {
    assert s[..j + 1][1..] == s[1..][..j];
  }

  /**
   * A run of n cycles consumes the first n outcomes: `cycles` and `generated`
   * grow by n, `inserted` by the successes and `conflicts` by the failures
   * among them, so no counter ever decreases; a pending run has used them all.
   */
  lemma {:induction false} SimulateCounts(cfg: Config, c: Counters, inserts: seq<bool>)
    ensures var t := Simulate(cfg, c, inserts); var n := t.final.cycles - c.cycles;
      0 <= n <= |inserts| &&
      t.final.generated == c.generated + n &&
      t.final.inserted == c.inserted + Count(true, inserts[..n]) &&
      t.final.conflicts == c.conflicts + Count(false, inserts[..n]) &&
      (t.ending.Pending? ==> n == |inserts|)
    decreases |inserts|
  {
    if Decide(c, cfg).Proceed? && |inserts| > 0 {
      var next := Advance(c, inserts[0]);
      SimulateCounts(cfg, next, inserts[1..]);
      var n' := Simulate(cfg, next, inserts[1..]).final.cycles - next.cycles;
      CountPrefix(true, inserts, n');
      CountPrefix(false, inserts, n');
    }
  }

  /**
   * Starting balanced, every summary and the final counters are balanced:
   * `inserted + conflicts == generated == cycles`.
   */
  lemma {:induction false} SimulateBalanced(cfg: Config, c: Counters, inserts: seq<bool>)
    requires Balanced(c)
    ensures var t := Simulate(cfg, c, inserts);
      Balanced(t.final) && forall i :: 0 <= i < |t.progress| ==> Balanced(t.progress[i])
    decreases |inserts|
  {
    if Decide(c, cfg).Proceed? && |inserts| > 0 {
      SimulateBalanced(cfg, Advance(c, inserts[0]), inserts[1..]);
    }
  }

  /**
   * Summaries on the cadence are written exactly at the cycle counts k that
   * the run passed through (before its stop, if any) with `k > 0` and
   * `k % every == 0`; with no cadence, or a cadence of 0, there are none.
   */
  lemma {:induction false} SummariesOnCadence(cfg: Config, c: Counters, inserts: seq<bool>)
    ensures var t := Simulate(cfg, c, inserts);
      forall k: nat :: k in CyclesOf(t.progress) <==>
        (c.cycles <= k <= t.final.cycles && (k < t.final.cycles || t.ending.Pending?) &&
         SummaryDue(k, cfg.limits.summarizeEvery))
    decreases |inserts|
  {
    var t := Simulate(cfg, c, inserts);
    match Decide(c, cfg)
    case Stop(_) =>
    case Proceed(summarize) =>
      var here := if summarize then [c] else [];
      if |inserts| > 0 {
        var rest := Simulate(cfg, Advance(c, inserts[0]), inserts[1..]);
        SummariesOnCadence(cfg, Advance(c, inserts[0]), inserts[1..]);
        SimulateCounts(cfg, Advance(c, inserts[0]), inserts[1..]);
        CyclesOfAppend(here, rest.progress);
      }
  }

  /** Whatever the limits, a run with an outcome to consume gets through its first cycle. */
  lemma FirstCycleAlwaysRuns(cfg: Config, inserts: seq<bool>)
    requires |inserts| >= 1
    ensures Simulate(cfg, Initial, inserts).final.cycles >= 1
  {
    SimulateProceeds(cfg, Initial, inserts);
    SimulateCounts(cfg, Advance(Initial, inserts[0]), inserts[1..]);
  }

  /** With every limit absent the run never stops: it consumes every outcome. */
  lemma {:induction false} NoLimitsNeverStop(cfg: Config, c: Counters, inserts: seq<bool>)
    requires cfg.limits.cycleLimit == None && cfg.limits.conflictsPercentageLimit == None
    requires cfg.limits.slogansLimit == None
    ensures var t := Simulate(cfg, c, inserts);
      t.ending == Pending && t.final.cycles == c.cycles + |inserts|
    decreases |inserts|
  {
    if |inserts| > 0 {
      SimulateProceeds(cfg, c, inserts);
      NoLimitsNeverStop(cfg, Advance(c, inserts[0]), inserts[1..]);
    }
  }

  /** With no cadence, or a cadence of 0, a run writes no summary on the way. */
  lemma {:induction false} NoCadenceNoSummaries(cfg: Config, c: Counters, inserts: seq<bool>)
    requires cfg.limits.summarizeEvery == None || cfg.limits.summarizeEvery == Some(0)
    ensures Simulate(cfg, c, inserts).progress == []
    decreases |inserts|
  {
    if Decide(c, cfg).Proceed? && |inserts| > 0 {
      SimulateProceeds(cfg, c, inserts);
      NoCadenceNoSummaries(cfg, Advance(c, inserts[0]), inserts[1..]);
    }
  }

  function Max(a: int, b: int): int { if a >= b then a else b }

  /** From `c` on, a cycle limit n with the other two limits absent stops at cycle max(n, 1). */
  lemma {:induction false} CycleLimitReached(cfg: Config, n: int, c: Counters, inserts: seq<bool>)
    requires cfg.limits.cycleLimit == Some(n)
    requires cfg.limits.conflictsPercentageLimit == None && cfg.limits.slogansLimit == None
    requires c.cycles <= Max(n, 1) && |inserts| >= Max(n, 1) - c.cycles
    ensures var t := Simulate(cfg, c, inserts);
      t.ending == Stopped(CycleLimit) && t.final.cycles == Max(n, 1)
    decreases |inserts|
  {
    if c.cycles < Max(n, 1) {
      CycleLimitReached(cfg, n, Advance(c, inserts[0]), inserts[1..]);
    }
  }

  /**
   * With a cycle limit n and no conflict or generation limit, exactly max(n, 1)
   * cycles run and the process exits for the cycle limit (the first cycle
   * always runs).
   */
  lemma CycleLimitRunsExactly(cfg: Config, n: int, inserts: seq<bool>)
    requires cfg.limits.cycleLimit == Some(n)
    requires cfg.limits.conflictsPercentageLimit == None && cfg.limits.slogansLimit == None
    requires |inserts| >= Max(n, 1)
    ensures var t := Simulate(cfg, Initial, inserts); var m := Max(n, 1);
      t.ending == Stopped(CycleLimit) && t.final.cycles == m &&
      t.final.inserted == Count(true, inserts[..m]) &&
      t.final.conflicts == Count(false, inserts[..m])
  {
    var t := Simulate(cfg, Initial, inserts);
    var m := Max(n, 1);
    CycleLimitReached(cfg, n, Initial, inserts);
    assert t.ending == Stopped(CycleLimit) && t.final.cycles == m;
    SimulateCounts(cfg, Initial, inserts);
    assert t.final.inserted == Count(true, inserts[..m]);
  }

  /**
   * From `c` on, with `generated` keeping pace with `cycles`, a generation
   * limit n with the other two limits absent stops at cycle max(n, 1).
   */
  lemma {:induction false} GenerationLimitReached(cfg: Config, n: int, c: Counters, inserts: seq<bool>)
    requires cfg.limits.slogansLimit == Some(n)
    requires cfg.limits.cycleLimit == None && cfg.limits.conflictsPercentageLimit == None
    requires c.generated == c.cycles
    requires c.cycles <= Max(n, 1) && |inserts| >= Max(n, 1) - c.cycles
    ensures var t := Simulate(cfg, c, inserts);
      t.ending == Stopped(GenerationsLimit) && t.final.cycles == Max(n, 1)
    decreases |inserts|
  {
    if c.cycles < Max(n, 1) {
      GenerationLimitReached(cfg, n, Advance(c, inserts[0]), inserts[1..]);
    }
  }

  /**
   * With a generation limit n and no cycle or conflict limit, exactly
   * max(n, 1) slogans are generated and the process exits for the generation
   * limit.
   */
  lemma GenerationLimitRunsExactly(cfg: Config, n: int, inserts: seq<bool>)
    requires cfg.limits.slogansLimit == Some(n)
    requires cfg.limits.cycleLimit == None && cfg.limits.conflictsPercentageLimit == None
    requires |inserts| >= Max(n, 1)
    ensures var t := Simulate(cfg, Initial, inserts); var m := Max(n, 1);
      t.ending == Stopped(GenerationsLimit) && t.final.cycles == m && t.final.generated == m &&
      t.final.inserted == Count(true, inserts[..m]) &&
      t.final.conflicts == Count(false, inserts[..m])
  {
    var t := Simulate(cfg, Initial, inserts);
    var m := Max(n, 1);
    GenerationLimitReached(cfg, n, Initial, inserts);
    assert t.ending == Stopped(GenerationsLimit) && t.final.cycles == m;
    SimulateCounts(cfg, Initial, inserts);
    assert t.final.inserted == Count(true, inserts[..m]);
  }

  /**
   * The pre-check after j more cycles from `c` sees a majority of conflicts
   * (the percentage rounds to 100).
   */
  predicate MajorityAfter(c: Counters, inserts: seq<bool>, j: nat)
    requires j <= |inserts|
  {
    c.cycles + j > 0 && 2 * (c.conflicts + Count(false, inserts[..j])) >= c.generated + j
  }

  lemma MajorityShift(c: Counters, inserts: seq<bool>, j: nat)
    requires j < |inserts|
    ensures MajorityAfter(Advance(c, inserts[0]), inserts[1..], j) <==> MajorityAfter(c, inserts, j + 1)
  {
    CountPrefix(false, inserts, j);
  }

  /**
   * With a conflict-percentage limit 0 < L <= 100 and no cycle or generation
   * limit, a balanced run stops at the first pre-check where
   * `2 * conflicts >= generated`, and otherwise goes on through every outcome.
   */
  lemma {:induction false} ConflictsLimitStopsAtFirstMajority(cfg: Config, limit: int, c: Counters, inserts: seq<bool>)
    requires cfg.limits.conflictsPercentageLimit == Some(limit) && 0 < limit <= 100
    requires cfg.limits.cycleLimit == None && cfg.limits.slogansLimit == None
    requires Balanced(c)
    ensures var t := Simulate(cfg, c, inserts); var n := t.final.cycles - c.cycles;
      0 <= n <= |inserts| &&
      (forall j :: 0 <= j < n ==> !MajorityAfter(c, inserts, j)) &&
      (t.ending == Stopped(ConflictsLimit) || t.ending == Pending) &&
      (t.ending == Stopped(ConflictsLimit) ==> MajorityAfter(c, inserts, n)) &&
      (t.ending == Pending ==> n == |inserts| && !MajorityAfter(c, inserts, n))
    decreases |inserts|
  {
    assert inserts[..0] == [];
    var d := Decide(c, cfg);
    if c.cycles > 0 {
      ConflictsLimitDecision(c, cfg, limit);
    }
    assert d.Stop? <==> MajorityAfter(c, inserts, 0);
    if d.Proceed? && |inserts| > 0 {
      var next := Advance(c, inserts[0]);
      var rest := Simulate(cfg, next, inserts[1..]);
      ConflictsLimitStopsAtFirstMajority(cfg, limit, next, inserts[1..]);
      SimulateCounts(cfg, next, inserts[1..]);
      var n' := rest.final.cycles - next.cycles;
      forall j | 0 <= j <= n'
        ensures MajorityAfter(next, inserts[1..], j) <==> MajorityAfter(c, inserts, j + 1)
      {
        MajorityShift(c, inserts, j);
      }
      var t := Simulate(cfg, c, inserts);
      assert t.final == rest.final && t.ending == rest.ending;
      assert t.final.cycles - c.cycles == n' + 1;
      forall j | 0 <= j < n' + 1
        ensures !MajorityAfter(c, inserts, j)
      {
        if j > 0 {
          assert !MajorityAfter(next, inserts[1..], j - 1);
        }
      }
    }
  }

  /** A conflict-percentage limit above 100 never stops a balanced run. */
  lemma {:induction false} ConflictsLimitAbove100NeverStops(cfg: Config, limit: int, c: Counters, inserts: seq<bool>)
    requires cfg.limits.conflictsPercentageLimit == Some(limit) && limit > 100
    requires Balanced(c)
    ensures Simulate(cfg, c, inserts).ending != Stopped(ConflictsLimit)
    decreases |inserts|
  {
    if c.cycles > 0 && !Reached(cfg.limits.cycleLimit, c.cycles) {
      ConflictsLimitDecision(c, cfg, limit);
    }
    if Decide(c, cfg).Proceed? && |inserts| > 0 {
      ConflictsLimitAbove100NeverStops(cfg, limit, Advance(c, inserts[0]), inserts[1..]);
    }
  }

  /**
   * A conflict limit of 50 against a store that rejects every second insert:
   * the first rejection already rounds to 100% and stops the run after two cycles.
   */
  lemma EveryOtherRejectedStopsAtFirstConflict(cfg: Config)
    requires cfg.limits == Limits(None, None, None, Some(50))
    ensures Simulate(cfg, Initial, [true, false, true, false]) ==
      Trace(Counters(2, 2, 1, 1), Stopped(ConflictsLimit), [])
  {
    var s0, s1, s2 := [true, false, true, false], [false, true, false], [true, false];
    assert s0[0] && s0[1..] == s1 && !s1[0] && s1[1..] == s2;
    var one := Advance(Initial, true);
    var two := Advance(one, false);
    assert two == Counters(2, 2, 1, 1);
    assert Decide(Initial, cfg) == Proceed(false);
    assert ConflictsPercentage(one.conflicts, one.generated) == Finite(0);
    assert Decide(one, cfg) == Proceed(false);
    assert ConflictsPercentage(two.conflicts, two.generated) == Finite(100);
    assert Decide(two, cfg) == Stop(ConflictsLimit);
    SimulateStops(cfg, two, s2);
    SimulateProceeds(cfg, one, s1);
    SimulateProceeds(cfg, Initial, s0);
  }


}
