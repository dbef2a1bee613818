/**
 * The stopping configuration, read once when setup has completed
 * (index.js:40-44) and never changed afterwards.
 */
module Settings {
  import opened Wrappers
  import Words

  /**
   * The process exit codes the program names. `InternalError` (setup of the
   * generation cycles threw) is the failure of `Load`; `Success` is the code
   * every stop reason exits with, so a stopped run stands for it; the other
   * three belong to the setup failures this model leaves out.
   */
  datatype ExitCode = Success | InputFileError | ChainCreationError | DatabaseSetupError | InternalError

  /**
   * The four numeric controls, each the result of `parseInt(…, 10)`: `None`
   * stands for NaN (variable unset or not numeric), which disables the control.
   */
  datatype Limits = Limits(
    slogansLimit: Option<int>,              // SLOGANS_LIMIT
    cycleLimit: Option<int>,                // SLOGANS_CYCLE_LIMIT
    summarizeEvery: Option<int>,            // SLOGANS_CYCLE_SUMMARIZE
    conflictsPercentageLimit: Option<int>)  // SLOGANS_CONFLICTS_PERCENTAGE_LIMIT

  /** What the process environment supplies; `startingWords` is None when SLOGANS_STARTING_WORDS is unset. */
  datatype Environment = Environment(limits: Limits, startingWords: Option<string>)

  /** The configuration the loop runs with. */
  datatype Config = Config(limits: Limits, startingWords: seq<string>)

  /** A configuration the loop can sample a starting word from. */
  predicate ValidConfig(cfg: Config) {
    |cfg.startingWords| >= 1 &&
    forall i :: 0 <= i < |cfg.startingWords| ==> ' ' !in cfg.startingWords[i]
  }

  /**
   * Builds the configuration. Calling `split` on an unset variable throws, and
   * the handler of the setup promise exits with the internal-error code.
   */
  function Load(env: Environment): (r: Result<Config, ExitCode>)
    ensures r.Success? <==> env.startingWords.Some?
    ensures r.Failure? ==> r.error == InternalError
    ensures r.Success? ==>
      ValidConfig(r.value) && r.value.limits == env.limits &&
      Words.Join(r.value.startingWords) == env.startingWords.value
  {
    match env.startingWords
    case None => Failure(InternalError)
    case Some(setting) =>
      Words.JoinSplit(setting);
      Result.Success(Config(env.limits, Words.Split(setting)))
  }
}
