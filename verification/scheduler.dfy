/** The outer run loop (run_scraping_loop) and the rolling 24-hour job
    counter (monitor_24_hour_job_counts). The clock is an integer number
    of seconds supplied from outside; sleeping is counted, not performed. */
module Scheduler {

  import opened Config
  import opened Offsets
  import opened Crawl
  import opened Session

  /** timedelta(hours=24), in seconds. */
  const Day: nat := 86400

  /** One entry of the daily job-count log: the window and the count. */
  datatype DayRecord = DayRecord(from: int, to: int, count: nat)

  /** The counter's state: the window's start, the global jobs_added, and
      the records appended so far. */
  datatype Monitor = Monitor(start: int, jobsAdded: nat, log: seq<DayRecord>)

  /** Jobs accounted for by a log. */
  function Total(log: seq<DayRecord>): nat {
    if |log| == 0 then 0 else Total(log[..|log| - 1]) + log[|log| - 1].count
  }

  /** monitor_24_hour_job_counts: once a full day has passed since the
      window opened, the running count is closed into a record and a new
      window opens at `now` with a zero count; before that nothing changes. */
  function Monitor24h(m: Monitor, now: int): Monitor {
    if now >= m.start + Day then Monitor(now, 0, m.log + [DayRecord(m.start, m.start + Day, m.jobsAdded)])
    else m
  }

  /** The counter appends a record exactly when a day has passed, the record
      spans exactly one day, and no job is lost or counted twice. */
  lemma Monitor24hRecords(m: Monitor, now: int)
    ensures var r := Monitor24h(m, now);
            && |r.log| == |m.log| + (if m.start + Day <= now then 1 else 0)
            && r.log[..|m.log|] == m.log
            && Total(r.log) + r.jobsAdded == Total(m.log) + m.jobsAdded
            && (|r.log| > |m.log| ==>
                  && r.log[|m.log|] == DayRecord(m.start, m.start + Day, m.jobsAdded)
                  && r.log[|m.log|].to - r.log[|m.log|].from == Day
                  && r.start == now && r.jobsAdded == 0)
            && (|r.log| == |m.log| ==> r == m)
  {
    var r := Monitor24h(m, now);
    if now >= m.start + Day {
      assert r.log[..|r.log| - 1] == m.log;
    }
  }

  /** What the environment supplies for one run: the proxy test's answer,
      whether connect_db succeeds, and the clock reading the counter takes. */
  datatype RunOracle = RunOracle(proxyOk: bool, connected: bool, now: int)

  datatype LoopStop =
    | AllRunsDone   // the for loop ran out of run numbers
    | ProxyFailed   // the proxy test failed: break
    | SweepRaised   // the sweep raised: caught, break
    | SweepHung     // a sweep was still retrying when the fetch outcomes ended
    | OracleEnded   // the environment supplied no further run

  /** `sweeps` counts calls of the sweep, `returned` those that returned. */
  datatype LoopRun = LoopRun(stop: LoopStop, sweeps: nat, returned: nat, sleeps: nat, disk: Disk, monitor: Monitor, consumed: nat, added: nat)

  /** One sweep, given the offset file, whether the connection opens, and
      the fetch outcomes still to come. */
  type SweepStep = (Disk, bool, seq<FetchOutcome>) -> SweepRun

  /** The outcomes left after a sweep that used `used` of them. A sweep
      never uses more than it is offered (SweepUsesOffered), so the bound
      only makes the slice total for any sweep step. */
  function Remaining(outcomes: seq<FetchOutcome>, used: nat): (rest: seq<FetchOutcome>)
    ensures used <= |outcomes| ==> outcomes == outcomes[..used] + rest
  {
    if used <= |outcomes| then outcomes[used..] else []
  }

  /** run_scraping_loop from run number `runCount` on, for a loop of
      `maxRuns` runs. */
  function RunFrom(maxRuns: nat, sweep: SweepStep, runCount: nat, runs: seq<RunOracle>, outcomes: seq<FetchOutcome>, disk: Disk, m: Monitor): (r: LoopRun)
    requires runCount <= maxRuns
    ensures r.sweeps <= maxRuns - runCount && r.sweeps <= |runs|
    decreases maxRuns - runCount
  {
    if runCount == maxRuns then LoopRun(AllRunsDone, 0, 0, 0, disk, m, 0, 0)
    else if |runs| == 0 then LoopRun(OracleEnded, 0, 0, 0, disk, m, 0, 0)
    else if !runs[0].proxyOk then LoopRun(ProxyFailed, 0, 0, 0, disk, m, 0, 0)
    else
      var s := sweep(disk, runs[0].connected, outcomes);
      var counted := m.(jobsAdded := m.jobsAdded + s.added);
      if s.status.MissingKey? then LoopRun(SweepRaised, 1, 0, 0, s.state.disk, counted, s.consumed, s.added)
      else if s.status.SweepStalled? then LoopRun(SweepHung, 1, 0, 0, s.state.disk, counted, s.consumed, s.added)
      else
        var next := Monitor24h(counted, runs[0].now);
        var slept := if runCount < maxRuns - 1 then 1 else 0;
        var rest := RunFrom(maxRuns, sweep, runCount + 1, runs[1..], Remaining(outcomes, s.consumed), s.state.disk, next);
        LoopRun(rest.stop, rest.sweeps + 1, rest.returned + 1, rest.sleeps + slept, rest.disk, rest.monitor,
                s.consumed + rest.consumed, s.added + rest.added)
  }

  /** run_scraping_loop as the program starts it: run numbers from zero,
      the real sweep, and a counter window opening at `start` with no
      jobs and an empty log. */
  function RunScrapingLoop(cfg: Settings, runs: seq<RunOracle>, outcomes: seq<FetchOutcome>, disk: Disk, start: int): (r: LoopRun)
    ensures r.sweeps <= cfg.maxRuns && r.sweeps <= |runs|
  {
    RunFrom(cfg.maxRuns, (d, c, o) => Sweep(cfg, d, c, o), 0, runs, outcomes, disk, Monitor(start, 0, []))
  }

  /** Every sweep but possibly the last returned, and when the loop ran out
      of run numbers all of them returned. */
  lemma {:induction false} RunFromReturns(maxRuns: nat, sweep: SweepStep, runCount: nat, runs: seq<RunOracle>, outcomes: seq<FetchOutcome>, disk: Disk, m: Monitor)
    requires runCount <= maxRuns
    ensures var r := RunFrom(maxRuns, sweep, runCount, runs, outcomes, disk, m);
            && (r.returned == r.sweeps || (r.returned + 1 == r.sweeps && (r.stop == SweepRaised || r.stop == SweepHung)))
            && (r.stop == AllRunsDone ==> r.returned == maxRuns - runCount)
    decreases maxRuns - runCount
  {
    if runCount < maxRuns && |runs| > 0 && runs[0].proxyOk {
      var s := sweep(disk, runs[0].connected, outcomes);
      if !s.status.MissingKey? && !s.status.SweepStalled? {
        var next := Monitor24h(m.(jobsAdded := m.jobsAdded + s.added), runs[0].now);
        RunFromReturns(maxRuns, sweep, runCount + 1, runs[1..], Remaining(outcomes, s.consumed), s.state.disk, next);
      }
    }
  }

  /** One sleep follows each returned sweep except the one of the last run
      number. */
  lemma {:induction false} RunFromSleeps(maxRuns: nat, sweep: SweepStep, runCount: nat, runs: seq<RunOracle>, outcomes: seq<FetchOutcome>, disk: Disk, m: Monitor)
    requires runCount <= maxRuns
    ensures var r := RunFrom(maxRuns, sweep, runCount, runs, outcomes, disk, m);
            r.sleeps == (if r.stop == AllRunsDone && r.returned > 0 then r.returned - 1 else r.returned)
    decreases maxRuns - runCount
  {
    if runCount < maxRuns && |runs| > 0 && runs[0].proxyOk {
      var s := sweep(disk, runs[0].connected, outcomes);
      if !s.status.MissingKey? && !s.status.SweepStalled? {
        var next := Monitor24h(m.(jobsAdded := m.jobsAdded + s.added), runs[0].now);
        var tail := Remaining(outcomes, s.consumed);
        var rest := RunFrom(maxRuns, sweep, runCount + 1, runs[1..], tail, s.state.disk, next);
        RunFromSleeps(maxRuns, sweep, runCount + 1, runs[1..], tail, s.state.disk, next);
        var r := RunFrom(maxRuns, sweep, runCount, runs, outcomes, disk, m);
        assert r.stop == rest.stop && r.returned == rest.returned + 1
            && r.sleeps == rest.sleeps + (if runCount < maxRuns - 1 then 1 else 0);
        if runCount < maxRuns - 1 {
          RunFromReturns(maxRuns, sweep, runCount + 1, runs[1..], tail, s.state.disk, next);
          assert rest.stop == AllRunsDone ==> rest.returned > 0;
        } else {
          assert rest.stop == AllRunsDone && rest.returned == 0 && rest.sleeps == 0;
        }
      }
    }
  }

  /** Every sweep follows a successful proxy test, and a failed one is what
      stopped the loop when it says so. */
  lemma {:induction false} RunFromProxy(maxRuns: nat, sweep: SweepStep, runCount: nat, runs: seq<RunOracle>, outcomes: seq<FetchOutcome>, disk: Disk, m: Monitor)
    requires runCount <= maxRuns
    ensures var r := RunFrom(maxRuns, sweep, runCount, runs, outcomes, disk, m);
            && (r.stop == ProxyFailed ==> r.sweeps < |runs| && !runs[r.sweeps].proxyOk)
            && (forall i :: 0 <= i < r.sweeps ==> runs[i].proxyOk)
    decreases maxRuns - runCount
  {
    if runCount < maxRuns && |runs| > 0 && runs[0].proxyOk {
      var s := sweep(disk, runs[0].connected, outcomes);
      if !s.status.MissingKey? && !s.status.SweepStalled? {
        var next := Monitor24h(m.(jobsAdded := m.jobsAdded + s.added), runs[0].now);
        RunFromProxy(maxRuns, sweep, runCount + 1, runs[1..], Remaining(outcomes, s.consumed), s.state.disk, next);
        assert forall i :: 1 <= i < |runs| ==> runs[1..][i - 1] == runs[i];
      }
    }
  }

  /** The daily log only grows: earlier records are never rewritten. */
  lemma {:induction false} RunFromLogGrows(maxRuns: nat, sweep: SweepStep, runCount: nat, runs: seq<RunOracle>, outcomes: seq<FetchOutcome>, disk: Disk, m: Monitor)
    requires runCount <= maxRuns
    ensures var r := RunFrom(maxRuns, sweep, runCount, runs, outcomes, disk, m);
            |m.log| <= |r.monitor.log| && r.monitor.log[..|m.log|] == m.log
    decreases maxRuns - runCount
  {
    if runCount < maxRuns && |runs| > 0 && runs[0].proxyOk {
      var s := sweep(disk, runs[0].connected, outcomes);
      if !s.status.MissingKey? && !s.status.SweepStalled? {
        var next := Monitor24h(m.(jobsAdded := m.jobsAdded + s.added), runs[0].now);
        var tail := Remaining(outcomes, s.consumed);
        Monitor24hRecords(m.(jobsAdded := m.jobsAdded + s.added), runs[0].now);
        RunFromLogGrows(maxRuns, sweep, runCount + 1, runs[1..], tail, s.state.disk, next);
        var rest := RunFrom(maxRuns, sweep, runCount + 1, runs[1..], tail, s.state.disk, next);
        assert rest.monitor.log[..|next.log|][..|m.log|] == rest.monitor.log[..|m.log|];
      }
    }
  }

  /** Every job a sweep added is either in a record of the daily log or in
      the running count, exactly once. */
  lemma {:induction false} RunFromCountsEveryJob(maxRuns: nat, sweep: SweepStep, runCount: nat, runs: seq<RunOracle>, outcomes: seq<FetchOutcome>, disk: Disk, m: Monitor)
    requires runCount <= maxRuns
    ensures var r := RunFrom(maxRuns, sweep, runCount, runs, outcomes, disk, m);
            Total(r.monitor.log) + r.monitor.jobsAdded == Total(m.log) + m.jobsAdded + r.added
    decreases maxRuns - runCount
  {
    if runCount < maxRuns && |runs| > 0 && runs[0].proxyOk {
      var s := sweep(disk, runs[0].connected, outcomes);
      if !s.status.MissingKey? && !s.status.SweepStalled? {
        var next := Monitor24h(m.(jobsAdded := m.jobsAdded + s.added), runs[0].now);
        Monitor24hRecords(m.(jobsAdded := m.jobsAdded + s.added), runs[0].now);
        RunFromCountsEveryJob(maxRuns, sweep, runCount + 1, runs[1..], Remaining(outcomes, s.consumed), s.state.disk, next);
      }
    }
  }

  /** A sweep that uses at most what it is offered makes the whole loop use
      at most what it is offered. */
  lemma {:induction false} RunFromUsesOffered(maxRuns: nat, sweep: SweepStep, runCount: nat, runs: seq<RunOracle>, outcomes: seq<FetchOutcome>, disk: Disk, m: Monitor)
    requires runCount <= maxRuns
    requires forall d, c, o :: sweep(d, c, o).consumed <= |o|
    ensures RunFrom(maxRuns, sweep, runCount, runs, outcomes, disk, m).consumed <= |outcomes|
    decreases maxRuns - runCount
  {
    if runCount < maxRuns && |runs| > 0 && runs[0].proxyOk {
      var s := sweep(disk, runs[0].connected, outcomes);
      if !s.status.MissingKey? && !s.status.SweepStalled? {
        var next := Monitor24h(m.(jobsAdded := m.jobsAdded + s.added), runs[0].now);
        RunFromUsesOffered(maxRuns, sweep, runCount + 1, runs[1..], Remaining(outcomes, s.consumed), s.state.disk, next);
      }
    }
  }

  /** The real sweep never uses more fetch outcomes than it is offered. */
  lemma SweepUsesOffered(cfg: Settings)
    ensures forall d, c, o :: Sweep(cfg, d, c, o).consumed <= |o|
  {
  }

  /** run_scraping_loop: with the shipped settings there are at most 576
      sweeps, each follows a successful proxy test, every added job is
      counted once, and the loop uses no more outcomes than offered. */
  lemma ShippedRunsAtMost(terms: seq<string>, dual: seq<string>, single: seq<string>, runs: seq<RunOracle>, outcomes: seq<FetchOutcome>, disk: Disk, start: int)
    ensures var r := RunScrapingLoop(Shipped(terms, dual, single), runs, outcomes, disk, start);
            && r.sweeps <= MaxRuns
            && (forall i :: 0 <= i < r.sweeps ==> runs[i].proxyOk)
            && Total(r.monitor.log) + r.monitor.jobsAdded == r.added
            && r.consumed <= |outcomes|
  {
    var cfg := Shipped(terms, dual, single);
    var sweep: SweepStep := (d, c, o) => Sweep(cfg, d, c, o);
    RunFromProxy(cfg.maxRuns, sweep, 0, runs, outcomes, disk, Monitor(start, 0, []));
    RunFromCountsEveryJob(cfg.maxRuns, sweep, 0, runs, outcomes, disk, Monitor(start, 0, []));
    SweepUsesOffered(cfg);
    RunFromUsesOffered(cfg.maxRuns, sweep, 0, runs, outcomes, disk, Monitor(start, 0, []));
  }

  /** A failed proxy test on the first run ends the loop before any sweep. */
  lemma ProxyFailureStopsAtOnce(cfg: Settings, runs: seq<RunOracle>, outcomes: seq<FetchOutcome>, disk: Disk, start: int)
    requires cfg.maxRuns > 0 && |runs| > 0 && !runs[0].proxyOk
    ensures var r := RunScrapingLoop(cfg, runs, outcomes, disk, start);
            r.stop == ProxyFailed && r.sweeps == 0 && r.disk == disk && r.monitor == Monitor(start, 0, [])
  {
  }

  /** The run loop carries the offset file from one sweep to the next: at
      any run number, the following run starts from exactly what this
      run's sweep left on disk, with the outcomes it did not use. */
  lemma NextSweepReadsSavedFile(cfg: Settings, runCount: nat, runs: seq<RunOracle>, outcomes: seq<FetchOutcome>, disk: Disk, m: Monitor)
    requires runCount + 1 < cfg.maxRuns && |runs| > 0 && runs[0].proxyOk
    requires var s := Sweep(cfg, disk, runs[0].connected, outcomes);
             s.status.Completed? || s.status.NotConnected?
    ensures var sweep: SweepStep := (d, c, o) => Sweep(cfg, d, c, o);
            var s := Sweep(cfg, disk, runs[0].connected, outcomes);
            var next := Monitor24h(m.(jobsAdded := m.jobsAdded + s.added), runs[0].now);
            RunFrom(cfg.maxRuns, sweep, runCount, runs, outcomes, disk, m).disk
              == RunFrom(cfg.maxRuns, sweep, runCount + 1, runs[1..], outcomes[s.consumed..], s.state.disk, next).disk
  {
    var sweep: SweepStep := (d, c, o) => Sweep(cfg, d, c, o);
    var s := sweep(disk, runs[0].connected, outcomes);
    assert Remaining(outcomes, s.consumed) == outcomes[s.consumed..];
  }

}
