/**
 * The run counters of the generation loop and the decision taken at the
 * start of every cycle (index.js:46-57, 67-88), with the bookkeeping of one
 * cycle (index.js:96-107).
 */
module Policy {
  import opened Wrappers
  import opened Settings

  /** The four process-lifetime counters. */
  datatype Counters = Counters(cycles: nat, generated: nat, inserted: nat, conflicts: nat)

  /** All counters start at zero. */
  const Initial: Counters := Counters(0, 0, 0, 0)

  /** The loop's invariant: one generation per cycle, and each settled as an insert or a conflict. */
  predicate Balanced(c: Counters) {
    c.inserted + c.conflicts == c.generated && c.generated == c.cycles
  }

  /**
   * `Math.round(n / d)` for d > 0 and n >= 0: how many times d can be taken
   * from n while at least half of d remains, so halves round up. The value
   * at d = 0 is never used: the percentage handles an empty run on its own.
   */
  function RoundRatio(n: nat, d: nat): nat
    decreases n
  {
    if d == 0 || 2 * n < d then 0 else if n <= d then 1 else 1 + RoundRatio(n - d, d)
  }

  /** RoundRatio is `Math.round`: k - 1/2 <= n/d < k + 1/2, written without fractions. */
  lemma {:induction false} RoundRatioRounds(n: nat, d: nat)
    requires d > 0
    ensures var k := RoundRatio(n, d); 2 * d * k - d <= 2 * n < 2 * d * k + d
    decreases n
  {
    if 2 * n >= d && n > d {
      RoundRatioRounds(n - d, d);
      var k := RoundRatio(n - d, d);
      assert RoundRatio(n, d) == k + 1;
      assert 2 * d * (k + 1) == 2 * d * k + 2 * d;
    }
  }

  /** A JavaScript number as far as the conflict percentage can produce one. */
  datatype Percentage = Finite(value: int) | NotANumber | PositiveInfinity

  /**
   * `Math.round(conflicts / generated) * 100` (index.js:52). The ratio is
   * rounded before it is scaled, so every finite result is a multiple of 100,
   * and for a balanced run it is 0 or 100. With nothing generated the division
   * gives NaN (0/0) or +Infinity.
   */
  function ConflictsPercentage(conflicts: nat, generated: nat): (p: Percentage)
    ensures p.Finite? <==> generated > 0
    ensures p.Finite? ==> p.value % 100 == 0
    ensures 0 < generated && conflicts <= generated ==>
      p == Finite(if 2 * conflicts >= generated then 100 else 0)
  {
    if generated > 0 then Finite(100 * RoundRatio(conflicts, generated))
    else if conflicts == 0 then NotANumber
    else PositiveInfinity
  }

  /** JavaScript's `p >= limit` for a finite limit: NaN compares false, +Infinity true. */
  predicate AtLeast(p: Percentage, limit: int) {
    match p
    case Finite(v) => v >= limit
    case NotANumber => false
    case PositiveInfinity => true
  }

  /** `!isNaN(limit) && value >= limit`: an absent limit is never reached. */
  predicate Reached(limit: Option<int>, value: int) {
    limit.Some? && value >= limit.value
  }

  /**
   * `cycles && cycles % every === 0` (index.js:86). JavaScript's `%` truncates
   * toward zero, so for positive `cycles` the remainder is zero exactly when
   * |every| divides `cycles`; Dafny's `%` is zero in exactly the same cases.
   * `cycles % 0` and `cycles % NaN` are NaN, which is never `=== 0`.
   */
  predicate SummaryDue(cycles: nat, every: Option<int>) {
    cycles != 0 && every.Some? && every.value != 0 && cycles % every.value == 0
  }

  /** Why the loop stops; each reason ends the process with the success code. */
  datatype StopReason = CycleLimit | ConflictsLimit | GenerationsLimit

  /** The outcome of a cycle's pre-checks. */
  datatype Decision = Stop(reason: StopReason) | Proceed(summarize: bool)

  /** `!isNaN(limit) && percentage >= limit` for the conflict-percentage limit (index.js:74). */
  predicate ConflictsReached(c: Counters, l: Limits) {
    l.conflictsPercentageLimit.Some? &&
    AtLeast(ConflictsPercentage(c.conflicts, c.generated), l.conflictsPercentageLimit.value)
  }

  /**
   * The pre-checks of a cycle, in the program's order: cycle limit, conflict
   * percentage, generation limit, then the summary cadence. Every check is
   * guarded by `cycles` being non-zero, so the very first cycle always runs;
   * after it the run stops exactly when some configured limit is reached, and
   * the reason given is the first of them in that order.
   */
  function Decide(c: Counters, cfg: Config): (d: Decision)
    ensures c.cycles == 0 ==> d == Proceed(false)
    ensures d.Stop? <==>
      c.cycles > 0 &&
      (Reached(cfg.limits.cycleLimit, c.cycles) || ConflictsReached(c, cfg.limits) ||
       Reached(cfg.limits.slogansLimit, c.generated))
    ensures d == Stop(CycleLimit) <==> c.cycles > 0 && Reached(cfg.limits.cycleLimit, c.cycles)
    ensures d == Stop(ConflictsLimit) <==>
      c.cycles > 0 && !Reached(cfg.limits.cycleLimit, c.cycles) && ConflictsReached(c, cfg.limits)
    ensures d == Stop(GenerationsLimit) <==>
      c.cycles > 0 && !Reached(cfg.limits.cycleLimit, c.cycles) && !ConflictsReached(c, cfg.limits) &&
      Reached(cfg.limits.slogansLimit, c.generated)
    ensures d.Proceed? ==> d.summarize == SummaryDue(c.cycles, cfg.limits.summarizeEvery)
  {
    var l := cfg.limits;
    if c.cycles != 0 && Reached(l.cycleLimit, c.cycles) then Stop(CycleLimit)
    else if c.cycles != 0 && ConflictsReached(c, l) then Stop(ConflictsLimit)
    else if c.cycles != 0 && Reached(l.slogansLimit, c.generated) then Stop(GenerationsLimit)
    else Proceed(SummaryDue(c.cycles, l.summarizeEvery))
  }

  /**
   * The bookkeeping of one cycle: `generated` and `cycles` go up by one before
   * the insert is issued, then `inserted` on success or `conflicts` on any
   * failure.
   */
  function Advance(c: Counters, accepted: bool): (next: Counters)
    ensures next.cycles == c.cycles + 1 && next.generated == c.generated + 1
    ensures next.inserted + next.conflicts == c.inserted + c.conflicts + 1
    ensures next.inserted >= c.inserted && next.conflicts >= c.conflicts
    ensures accepted <==> next.inserted > c.inserted
  {
    if accepted then Counters(c.cycles + 1, c.generated + 1, c.inserted + 1, c.conflicts)
    else Counters(c.cycles + 1, c.generated + 1, c.inserted, c.conflicts + 1)
  }

  /** In a balanced run the conflict limit L compares against 0 or 100 only. */
  lemma ConflictsLimitDecision(c: Counters, cfg: Config, limit: int)
    requires Balanced(c) && c.cycles > 0
    requires !Reached(cfg.limits.cycleLimit, c.cycles)
    requires cfg.limits.conflictsPercentageLimit == Some(limit)
    ensures 0 < limit <= 100 ==> (Decide(c, cfg) == Stop(ConflictsLimit) <==> 2 * c.conflicts >= c.generated)
    ensures limit > 100 ==> Decide(c, cfg) != Stop(ConflictsLimit)
    ensures limit <= 0 ==> Decide(c, cfg) == Stop(ConflictsLimit)
  {
  }

  /**
   * `generated` always equals `cycles`, so when the cycle and generation limits
   * are equal the cycle limit is the reason reported.
   */
  lemma CycleLimitWinsTie(c: Counters, cfg: Config)
    requires Balanced(c)
    requires cfg.limits.cycleLimit == cfg.limits.slogansLimit
    ensures Decide(c, cfg) != Stop(GenerationsLimit)
  {
  }
}
