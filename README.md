# Slogan generation loop, modelled in Dafny

The program generates slogans from a Markov chain and tries to store each one
in a relational table keyed by the SHA-256 digest of its text. Everything around
that is setup; the heart of it is the `cycle` function of `index.js`. Each cycle
runs pre-checks that may stop the process:

1. the cycle limit;
2. the conflict percentage;
3. the generation limit.

Otherwise the cycle may log a summary on a cadence. Then it samples a starting
word and generates a slogan. It fingerprints the slogan, counts it, and issues
the insert. A success bumps `inserted` and a rejection bumps `conflicts`, and
either way the next cycle is scheduled.

The model follows that structure:

- `Wrappers`: `Option` and `Result`.
- `Words`: the starting-words setting, split with JavaScript's `split(" ")`, and
  its inverse `Join`, with the two round trips proved.
- `Settings`: the four numeric limits, each `None` when `parseInt` gives NaN, and
  `Load`. `Load` builds the configuration or fails with the internal-error exit
  code when the starting-words variable is unset.
- `Policy`: the counters and the pure pieces of a cycle:
  - `ConflictsPercentage`, with JavaScript's NaN for 0/0 and +Infinity for c/0;
  - the pre-check decision `Decide`;
  - the bookkeeping of one cycle, `Advance`.
- `Loop`: `Simulate`, the whole run as a function of the insert outcomes the
  store returns, and the properties of whole runs proved about it.
- `Generation`: the class `Run`. It holds the four counters as mutable fields and
  the summaries logged so far. Its `PreCheck`, `Attempt`, `Cycle` and `Drive`
  methods update them in place, and each is proved against `Decide`, `Advance`
  and `Simulate`.

The percentage is reproduced as written: `Math.round(conflicts / generated) * 100`
rounds the ratio before scaling, so it is only ever 0 or 100. The conflict limit
therefore behaves as "stop once at least half of the inserts were rejected" for
every limit in 1..100, and never stops the run for a limit above 100. A graduated
percentage would round after scaling; the model keeps the formula the program
uses.

## Model

| member | source | states |
|---|---|---|
| Words.Split | index.js:44 | `split(" ")` always yields at least one piece, and no piece contains a space |
| Words.JoinSplit | index.js:44 | joining the pieces of the split setting with single spaces gives the setting back |
| Words.SplitJoin | index.js:44 | splitting space-free words joined by single spaces gives the same list back |
| Settings.Load | index.js:40-44 | succeeds exactly when the starting-words variable is set, and otherwise fails with the internal-error code; on success the word list is non-empty and space-free, joins back to the setting, and the limits are those given |
| Policy.RoundRatioRounds | index.js:52 | `RoundRatio(n, d)` is `Math.round(n / d)`: the integer k with k - 1/2 <= n/d < k + 1/2, halves rounding up |
| Policy.ConflictsPercentage | index.js:51-53 | the percentage is finite exactly when something was generated, and then a multiple of 100; for conflicts <= generated it is 100 when 2 * conflicts >= generated and 0 otherwise |
| Policy.Decide | index.js:67-88 | the first cycle always runs; after it the cycle stops exactly when a configured limit is reached (cycle count, conflict percentage, generation count); the reason is the first of those reached in that order; a cycle that runs summarizes exactly when the cadence divides its non-zero cycle count |
| Policy.Advance | index.js:96-107 | one cycle raises cycles and generated by 1 and exactly one of inserted or conflicts by 1; inserted rises exactly when the insert succeeded; no counter decreases |
| Policy.ConflictsLimitDecision | index.js:74-78 | in a balanced run past cycle 0, a conflict limit in 1..100 stops exactly when 2 * conflicts >= generated; a limit above 100 never stops; a limit <= 0 always stops |
| Policy.CycleLimitWinsTie | index.js:68-84 | with equal cycle and generation limits the generation-limit reason is never reported, because generated == cycles |
| Loop.SimulateCounts | index.js:96-107 | a run of n cycles raises cycles and generated by n, inserted by the successes and conflicts by the rejections among the first n outcomes; a pending run has used every outcome |
| Loop.SimulateBalanced | index.js:46-49 | starting balanced, inserted + conflicts == generated == cycles holds at the end and in every summary |
| Loop.SummariesOnCadence | index.js:86-88 | summaries are written exactly at the cycle counts k the run passed through (before its stop) with k > 0 and k a multiple of the cadence |
| Loop.NoCadenceNoSummaries | index.js:86 | with no cadence, or a cadence of 0, no summary is written on the way |
| Loop.FirstCycleAlwaysRuns | index.js:68 | whatever the limits, a run with an outcome to consume completes its first cycle |
| Loop.NoLimitsNeverStop | index.js:68-84 | with every limit absent the run never stops and consumes every outcome |
| Loop.CycleLimitRunsExactly | index.js:68-72 | with cycle limit N and no other limit, exactly max(N, 1) cycles run and the run stops for the cycle limit, with the counts of its outcomes |
| Loop.GenerationLimitRunsExactly | index.js:80-84 | with generation limit N and no cycle or conflict limit, exactly max(N, 1) slogans are generated and the run stops for the generation limit, with the counts of its outcomes |
| Loop.ConflictsLimitStopsAtFirstMajority | index.js:74-78 | with a conflict limit in 1..100 and no other limit, the run stops at the first pre-check where 2 * conflicts >= generated, and otherwise runs through every outcome |
| Loop.ConflictsLimitAbove100NeverStops | index.js:74-78 | a conflict limit above 100 never stops a balanced run |
| Loop.EveryOtherRejectedStopsAtFirstConflict | index.js:51-53 | with a limit of 50 and every second insert rejected, the run stops after two cycles, at the first conflict |
| Loop.SimulateEndsAt | index.js:67-111 | a run whose first n pre-checks let the cycle run, and whose next one stops it (or has no outcome left), ends after n cycles, with that stop reason |
| Loop.SimulateSummariesAt | index.js:86-88 | the same run logs exactly the cadence summaries of those n cycles, plus one if its last pre-check summarizes |
| Generation.Run.constructor | index.js:46-49 | all counters start at zero and nothing has been logged |
| Generation.Run.Summarize | index.js:55-57 | logs the current counters and changes no counter |
| Generation.Run.PreCheck | index.js:68-88 | returns the decision for the current counters and logs a summary on a stop or when the cadence is due |
| Generation.Run.Attempt | index.js:90-107 | counters become `Advance` of the old ones; the insert is keyed by the digest of the slogan generated from the sampled word of the configured list |
| Generation.Run.Cycle | index.js:67-109 | pre-checks, then either stops with the counters unchanged and no insert, or advances them and issues the keyed insert |
| Generation.Run.Drive | index.js:67-111 | runs cycles until a pre-check stops the run or the outcomes run out; every cycle that ran was let through by its pre-checks, the summaries are those on the cadence plus the closing one, and insert i is keyed by the digest of the slogan cycle i drew from its own chain walk |
| Generation.Run.DriveAsSimulated | index.js:67-111 | the counters, the ending and the summaries logged by the imperative run are those of `Simulate` |

## Left out

- The database module (connection, table drop and create): each insert outcome is an input boolean.
- The input-file module: reading the corpus is I/O.
- The logger module: a summary is recorded as the counters it reports, not as formatted text.
- The Markov-chain module: its two input guards sit before the loop, and the generator is a `chain` function parameter, one per cycle (`chains[i]` for cycle i of `Drive`), so each cycle draws its own random walk.
- SHA-256: the `digest` function parameter, returning a 64-character lowercase hex `Key`.
- `_.sample`: the random choice is a `pick` index, required to fall inside the word list.
- Promise chaining and `setImmediate`: the cycles are strictly serial, so a plain loop models them.
- The concurrent setup tasks, their exit codes (input file, chain creation, database setup) and the environment dump: setup only.
- `parseInt`: each limit is given as an `Option<int>`, with `None` for NaN.
- Floating point: the percentage is computed by the integer rounding rule, which is exact for these operands; JavaScript's -0 is not distinguished.
- Counter precision: the counters are JavaScript numbers, so past 2^53 an increment no longer changes them and the rounding rule stops being exact; the model's counters are unbounded naturals, as that many cycles cannot occur in practice.
- Policy.RoundRatio: its value for d = 0 is never used; the percentage returns NaN (0/0) or +Infinity (c/0) when nothing was generated, before rounding.
- `process.exit`: a stop is the `Stopped` ending with its reason, always the success code.
- Generation.Run.Drive: a run whose store never answers is modelled as the `Pending` ending once the given outcomes are used; its counters are those of the last pre-check, before the waiting cycle's own increments of `generated` and `cycles`.
