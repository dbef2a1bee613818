/**
 * The generation loop as the program runs it (index.js:46-57, 67-109): the
 * counters are mutable state, and each cycle does its pre-checks, generates a
 * slogan from a sampled starting word, fingerprints it, counts it, and settles
 * the insert as a success or a conflict. The asynchronous rescheduling with
 * `setImmediate` is a plain loop here: cycles never overlap.
 */
module Generation {
  import opened Wrappers
  import opened Settings
  import opened Policy
  import opened Loop

  predicate IsLowerHex(ch: char) {
    '0' <= ch <= '9' || 'a' <= ch <= 'f'
  }

  /** A SHA-256 digest rendered as 64 lowercase hex characters, the `CHAR(64)` primary key. */
  type Key = s: string | |s| == 64 && forall i :: 0 <= i < |s| ==> IsLowerHex(s[i])
    witness seq(64, _ => '0')

  /** The row a cycle asks the store to insert. */
  datatype SloganRecord = SloganRecord(key: Key, text: string)

  /**
   * The row for a starting word: the slogan the chain generates from it, keyed
   * by the digest of that slogan and of nothing else.
   */
  function RecordFor(word: string, chain: string -> string, digest: string -> Key): SloganRecord {
    var slogan := chain(word);
    SloganRecord(digest(slogan), slogan)
  }

  class Run {
    const config: Config
    var cycles: nat
    var generated: nat
    var inserted: nat
    var conflicts: nat
    /** The summaries logged so far, each as the counters it reports. */
    var summaries: seq<Counters>

    function Snapshot(): Counters
      reads this
    {
      Counters(cycles, generated, inserted, conflicts)
    }

    predicate Valid()
      reads this
    {
      ValidConfig(config) && Balanced(Snapshot())
    }

    /** The counters start at zero once setup has completed. */
    constructor (config: Config)
      requires ValidConfig(config)
      ensures Valid() && this.config == config
      ensures Snapshot() == Initial && summaries == []
    {
      this.config := config;
      cycles, generated, inserted, conflicts := 0, 0, 0, 0;
      summaries := [];
    }

    /** Logs cycles, generated and the conflict percentage; the counters stay as they are. */
    method Summarize()
      modifies this`summaries
      ensures summaries == old(summaries) + [Snapshot()]
    {
      summaries := summaries + [Snapshot()];
    }

    /**
     * The pre-checks of a cycle: on a stop the run summarizes before it exits,
     * otherwise it summarizes when the cadence is due.
     */
    method PreCheck() returns (d: Decision)
      modifies this`summaries
      ensures d == Decide(Snapshot(), config)
      ensures summaries == old(summaries) + (if d.Stop? || d.summarize then [Snapshot()] else [])
    {
      d := Decide(Snapshot(), config);
      if d.Stop? || d.summarize {
        Summarize();
      }
    }

    /**
     * The rest of a cycle: sample a starting word (`pick`), generate a slogan
     * from it (`chain`), key it by its digest (`digest`), count it, and count
     * the insert as `accepted` or as a conflict.
     */
    method Attempt(pick: nat, chain: string -> string, digest: string -> Key, accepted: bool)
      returns (query: SloganRecord)
      requires Valid() && pick < |config.startingWords|
      modifies this`cycles, this`generated, this`inserted, this`conflicts
      ensures Valid()
      ensures Snapshot() == Advance(old(Snapshot()), accepted)
      ensures query == RecordFor(config.startingWords[pick], chain, digest)
    {
      var startWord := config.startingWords[pick];
      var slogan := chain(startWord);
      var key := digest(slogan);
      generated := generated + 1;
      cycles := cycles + 1;
      query := SloganRecord(key, slogan);
      if accepted {
        inserted := inserted + 1;
      } else {
        conflicts := conflicts + 1;
      }
    }

    /**
     * One cycle (`cycle()` in the program): the pre-checks, then, unless they
     * stop the run, the attempt whose insert outcome is `accepted`.
     */
    method Cycle(pick: nat, chain: string -> string, digest: string -> Key, accepted: bool)
      returns (d: Decision, query: Option<SloganRecord>)
      requires Valid() && pick < |config.startingWords|
      modifies this
      ensures Valid()
      ensures d == Decide(old(Snapshot()), config)
      ensures summaries == old(summaries) + (if d.Stop? || d.summarize then [old(Snapshot())] else [])
      ensures d.Stop? ==> Snapshot() == old(Snapshot()) && query == None
      ensures d.Proceed? ==>
        Snapshot() == Advance(old(Snapshot()), accepted) &&
        query == Some(RecordFor(config.startingWords[pick], chain, digest))
    {
      d := PreCheck();
      if d.Stop? {
        query := None;
      } else {
        var record := Attempt(pick, chain, digest, accepted);
        query := Some(record);
      }
    }

    /**
     * Runs cycles until a limit stops the run or the outcomes run out. Cycle i
     * samples `picks[i]`, draws its slogan from the chain with `chains[i]` (a
     * fresh random walk each cycle) and its insert outcome is `inserts[i]`. Every cycle
     * that ran was let through by its pre-checks, the run ends where its
     * pre-checks first stop it or where the outcomes run out, and so it ends
     * exactly as `Simulate` says. Every issued insert is keyed by the digest
     * of the slogan generated from its starting word.
     */
    method Drive(picks: seq<nat>, inserts: seq<bool>, chains: seq<string -> string>, digest: string -> Key)
      returns (ending: Ending, queries: seq<SloganRecord>)
      requires Valid() && |picks| == |inserts| && |chains| == |inserts|
      requires forall i :: 0 <= i < |picks| ==> picks[i] < |config.startingWords|
      modifies this
      ensures Valid()
      ensures cycles - old(cycles) <= |inserts| && |queries| == cycles - old(cycles)
      ensures Snapshot() == After(old(Snapshot()), inserts, cycles - old(cycles))
      ensures AllProceed(config, old(Snapshot()), inserts, cycles - old(cycles))
      ensures ending.Stopped? ==> Decide(Snapshot(), config) == Stop(ending.reason)
      ensures ending.Pending? ==> cycles - old(cycles) == |inserts| && Decide(Snapshot(), config).Proceed?
      ensures summaries == old(summaries) + CadenceSummaries(config, old(Snapshot()), inserts, cycles - old(cycles))
        + (if ending.Stopped? || Decide(Snapshot(), config).summarize then [Snapshot()] else [])
      ensures forall i :: 0 <= i < |queries| ==> queries[i] == RecordFor(config.startingWords[picks[i]], chains[i], digest)
    {
      ghost var start := Snapshot();
      queries := [];
      ending := Pending;
      var i := 0;
      while i < |inserts|
        invariant 0 <= i <= |inserts| && Valid()
        invariant cycles == start.cycles + i && |queries| == i
        invariant Snapshot() == After(start, inserts, i)
        invariant AllProceed(config, start, inserts, i)
        invariant summaries == old(summaries) + CadenceSummaries(config, start, inserts, i)
        invariant forall k :: 0 <= k < i ==> queries[k] == RecordFor(config.startingWords[picks[k]], chains[k], digest)
        invariant ending == Pending
      {
        ghost var logged := summaries;
        var d, query := Cycle(picks[i], chains[i], digest, inserts[i]);
        if d.Stop? {
          ending := Stopped(d.reason);
          break;
        }
        AppendAssociative(old(summaries), CadenceSummaries(config, start, inserts, i), summaries[|logged|..]);
        queries := queries + [query.value];
        i := i + 1;
      }
      if ending.Pending? {
        var d := PreCheck();
        if d.Stop? {
          ending := Stopped(d.reason);
        }
      }
    }

    /**
     * The same run, stated through `Simulate`: the counters, the ending and
     * the summaries logged are those of the specification.
     */
    method DriveAsSimulated(picks: seq<nat>, inserts: seq<bool>, chains: seq<string -> string>, digest: string -> Key)
      returns (ending: Ending)
      requires Valid() && |picks| == |inserts| && |chains| == |inserts|
      requires forall i :: 0 <= i < |picks| ==> picks[i] < |config.startingWords|
      modifies this
      ensures Valid()
      ensures var t := Simulate(config, old(Snapshot()), inserts);
        Snapshot() == t.final && ending == t.ending &&
        summaries == old(summaries) + t.progress + (if t.ending.Stopped? then [t.final] else [])
    {
      ghost var start := Snapshot();
      var queries;
      ending, queries := Drive(picks, inserts, chains, digest);
      SimulateEndsAt(config, start, inserts, cycles - start.cycles);
      SimulateSummariesAt(config, start, inserts, cycles - start.cycles);
    }
  }
}
