/** The session orchestrator, scrape_all_sites_and_countries: load the
    offsets, open the database connection, drive every (country, site)
    pair, and close the connection on every way out. Also the start-up
    step that prepares the offset file. */
module Session {

  import opened Config
  import opened Offsets
  import opened Crawl
  import opened Sites

  /** get_all_countries: dual-site countries first, then Indeed-only ones. */
  function AllCountries(cfg: Settings): (r: seq<string>)
    ensures |r| == |cfg.dualSite| + |cfg.indeedOnly|
    ensures r[..|cfg.dualSite|] == cfg.dualSite && r[|cfg.dualSite|..] == cfg.indeedOnly
    ensures forall c :: c in r <==> c in cfg.dualSite || c in cfg.indeedOnly
  {
    cfg.dualSite + cfg.indeedOnly
  }

  /** get_site_list_for_country. */
  function SiteList(cfg: Settings, country: string): (r: seq<string>)
    ensures |r| == (if country in cfg.dualSite then 2 else 1)
    ensures r[0] == Indeed
    ensures Glassdoor in r <==> country in cfg.dualSite
    ensures forall s :: s in r ==> s == Indeed || s == Glassdoor
  {
    if country in cfg.dualSite then [Indeed, Glassdoor] else [Indeed]
  }

  /** The (country, site) pairs of one country, in site-list order. */
  function CountryVisits(cfg: Settings, c: string): seq<(string, string)> {
    if c in cfg.dualSite then [(c, Indeed), (c, Glassdoor)] else [(c, Indeed)]
  }

  /** The pairs of one country are the country with each site of
      get_site_list_for_country, in list order. */
  lemma CountryVisitsFollowSiteList(cfg: Settings, c: string)
    ensures |CountryVisits(cfg, c)| == |SiteList(cfg, c)|
    ensures forall i :: 0 <= i < |SiteList(cfg, c)| ==> CountryVisits(cfg, c)[i] == (c, SiteList(cfg, c)[i])
  {
  }

  /** The (country, site) pairs in the order of the sweep's nested loops. */
  function Visits(cfg: Settings, countries: seq<string>): seq<(string, string)>
    decreases |countries|
  {
    if |countries| == 0 then [] else CountryVisits(cfg, countries[0]) + Visits(cfg, countries[1..])
  }

  /** The sweep visits a pair exactly when its country is one of the
      countries and its site is on that country's site list. */
  lemma {:induction false} VisitsExactly(cfg: Settings, countries: seq<string>, c: string, s: string)
    ensures (c, s) in Visits(cfg, countries) <==> c in countries && s in SiteList(cfg, c)
    decreases |countries|
  {
    if |countries| > 0 {
      VisitsExactly(cfg, countries[1..], c, s);
      assert countries == [countries[0]] + countries[1..];
      assert (c, s) in CountryVisits(cfg, countries[0]) <==> c == countries[0] && s in SiteList(cfg, c);
    }
  }

  lemma {:induction false} VisitsAppend(cfg: Settings, a: seq<string>, b: seq<string>)
    ensures Visits(cfg, a + b) == Visits(cfg, a) + Visits(cfg, b)
    decreases |a|
  {
    if |a| > 0 {
      assert (a + b)[1..] == a[1..] + b;
      VisitsAppend(cfg, a[1..], b);
    } else {
      assert a + b == b;
    }
  }

  lemma {:induction false} DualVisits(cfg: Settings, xs: seq<string>)
    requires forall c :: c in xs ==> c in cfg.dualSite
    ensures |Visits(cfg, xs)| == 2 * |xs|
    ensures forall i :: 0 <= i < |xs| ==> Visits(cfg, xs)[2 * i] == (xs[i], Indeed)
    ensures forall i :: 0 <= i < |xs| ==> Visits(cfg, xs)[2 * i + 1] == (xs[i], Glassdoor)
    decreases |xs|
  {
    if |xs| > 0 {
      var rest := Visits(cfg, xs[1..]);
      DualVisits(cfg, xs[1..]);
      assert Visits(cfg, xs) == [(xs[0], Indeed), (xs[0], Glassdoor)] + rest;
      forall i | 1 <= i < |xs|
        ensures Visits(cfg, xs)[2 * i] == (xs[i], Indeed) && Visits(cfg, xs)[2 * i + 1] == (xs[i], Glassdoor)
      {
        var k := i - 1;
        assert xs[1..][k] == xs[i];
        assert rest[2 * k] == (xs[i], Indeed) && rest[2 * k + 1] == (xs[i], Glassdoor);
        assert Visits(cfg, xs)[2 * i] == rest[2 * k] && Visits(cfg, xs)[2 * i + 1] == rest[2 * k + 1];
      }
    }
  }

  lemma {:induction false} SingleVisits(cfg: Settings, xs: seq<string>)
    requires forall c :: c in xs ==> c !in cfg.dualSite
    ensures |Visits(cfg, xs)| == |xs|
    ensures forall i :: 0 <= i < |xs| ==> Visits(cfg, xs)[i] == (xs[i], Indeed)
    decreases |xs|
  {
    if |xs| > 0 {
      var rest := Visits(cfg, xs[1..]);
      SingleVisits(cfg, xs[1..]);
      assert Visits(cfg, xs) == [(xs[0], Indeed)] + rest;
      forall i | 1 <= i < |xs| ensures Visits(cfg, xs)[i] == (xs[i], Indeed) {
        assert xs[1..][i - 1] == xs[i];
      }
    }
  }

  /** Sweep order: when no country is in both classes, the sweep visits each
      dual-site country on Indeed then Glassdoor, in list order, and then
      each Indeed-only country on Indeed. */
  lemma SweepOrder(cfg: Settings)
    requires forall c :: c in cfg.indeedOnly ==> c !in cfg.dualSite
    ensures var p := Visits(cfg, AllCountries(cfg));
            var d := |cfg.dualSite|;
            && |p| == 2 * d + |cfg.indeedOnly|
            && (forall i :: 0 <= i < d ==> p[2 * i] == (cfg.dualSite[i], Indeed) && p[2 * i + 1] == (cfg.dualSite[i], Glassdoor))
            && (forall j :: 0 <= j < |cfg.indeedOnly| ==> p[2 * d + j] == (cfg.indeedOnly[j], Indeed))
  {
    var a := Visits(cfg, cfg.dualSite);
    var b := Visits(cfg, cfg.indeedOnly);
    assert AllCountries(cfg) == cfg.dualSite + cfg.indeedOnly;
    VisitsAppend(cfg, cfg.dualSite, cfg.indeedOnly);
    DualVisits(cfg, cfg.dualSite);
    SingleVisits(cfg, cfg.indeedOnly);
    InterleavedThenSingle(a, b, cfg.dualSite, cfg.indeedOnly);
  }

  /** Index arithmetic of SweepOrder: a two-pair-per-country prefix
      followed by a one-pair-per-country suffix. */
  lemma InterleavedThenSingle(a: seq<(string, string)>, b: seq<(string, string)>, xs: seq<string>, ys: seq<string>)
    requires |a| == 2 * |xs| && |b| == |ys|
    requires forall i :: 0 <= i < |xs| ==> a[2 * i] == (xs[i], Indeed) && a[2 * i + 1] == (xs[i], Glassdoor)
    requires forall j :: 0 <= j < |ys| ==> b[j] == (ys[j], Indeed)
    ensures var p := a + b;
            && |p| == 2 * |xs| + |ys|
            && (forall i :: 0 <= i < |xs| ==> p[2 * i] == (xs[i], Indeed) && p[2 * i + 1] == (xs[i], Glassdoor))
            && (forall j :: 0 <= j < |ys| ==> p[2 * |xs| + j] == (ys[j], Indeed))
  {
    var p := a + b;
    forall i | 0 <= i < |xs|
      ensures p[2 * i] == (xs[i], Indeed) && p[2 * i + 1] == (xs[i], Glassdoor)
    {
      assert p[2 * i] == a[2 * i] && p[2 * i + 1] == a[2 * i + 1];
    }
    forall j | 0 <= j < |ys|
      ensures p[2 * |xs| + j] == (ys[j], Indeed)
    {
      assert p[2 * |xs| + j] == b[j];
    }
  }

  datatype SiteReport = SiteReport(country: string, site: string, failed: seq<string>)

  datatype SweepStatus =
    | Completed
    | NotConnected          // connect_db returned None: the sweep returns without scraping
    | MissingKey(key: Key)  // an offset lookup raised; the exception leaves the sweep
    | SweepStalled          // a retry loop was still running when the outcomes ended

  datatype SweepRun = SweepRun(status: SweepStatus, reports: seq<SiteReport>, state: OffsetState, consumed: nat, added: nat, closed: bool)

  /** A site driver: the offsets, the country, the site and the fetch
      outcomes still to come. */
  type SiteDriver = (OffsetState, string, string, seq<FetchOutcome>) -> SiteRun

  /** process_site_scraping over the configured terms and threshold. */
  function Driver(terms: seq<string>, threshold: int): SiteDriver {
    (st, c, s, o) => ProcessSite(st, c, s, terms, o, threshold)
  }

  /** What the sweep relies on from one run of a site driver: the map keeps
      its keys, no more outcomes are used than offered, and a failed lookup
      names one of the terms with a key the map lacks. */
  predicate KeepsMap(r: SiteRun, st: OffsetState, country: string, site: string, outcomes: seq<FetchOutcome>, terms: seq<string>) {
    && r.state.memory.Keys == st.memory.Keys
    && r.consumed <= |outcomes|
    && |r.verdicts| <= |terms|
    && (r.status.SiteMissingKey? ==> r.status.term in terms && Key(country, site, r.status.term) !in st.memory)
  }

  ghost predicate SoundDriver(driver: SiteDriver, terms: seq<string>) {
    forall st, c, s, o :: KeepsMap(driver(st, c, s, o), st, c, s, o, terms)
  }

  /** The real site driver is sound. */
  lemma DriverIsSound(terms: seq<string>, threshold: int)
    ensures SoundDriver(Driver(terms, threshold), terms)
  {
    forall st, c, s, o ensures KeepsMap(Driver(terms, threshold)(st, c, s, o), st, c, s, o, terms) {
      var r := ProcessSite(st, c, s, terms, o, threshold);
      if r.status.SiteMissingKey? {
        assert r.status.term == terms[|r.verdicts|];
      }
    }
  }

  /** The body of the sweep's try block over the remaining pairs. A site
      driver that raises ends the sweep before its report is made. */
  function SweepPairs(driver: SiteDriver, st: OffsetState, terms: seq<string>, pairs: seq<(string, string)>, outcomes: seq<FetchOutcome>): (r: SweepRun)
    requires SoundDriver(driver, terms)
    ensures |r.reports| <= |pairs| && r.consumed <= |outcomes|
    ensures r.state.memory.Keys == st.memory.Keys
    ensures r.status.Completed? || r.status.MissingKey? || r.status.SweepStalled?
    ensures r.status.Completed? ==> |r.reports| == |pairs|
    decreases |pairs|
  {
    if |pairs| == 0 then SweepRun(Completed, [], st, 0, 0, false)
    else
      var country := pairs[0].0;
      var site := pairs[0].1;
      var s := driver(st, country, site, outcomes);
      assert KeepsMap(s, st, country, site, outcomes, terms);
      match s.status
      case SiteMissingKey(t) =>
        SweepRun(MissingKey(Key(country, site, t)), [], s.state, s.consumed, s.added, false)
      case SiteStalled =>
        SweepRun(SweepStalled, [], s.state, s.consumed, s.added, false)
      case SiteDone =>
        var rest := SweepPairs(driver, s.state, terms, pairs[1..], outcomes[s.consumed..]);
        SweepRun(rest.status, [SiteReport(country, site, Failed(terms, s))] + rest.reports,
                 rest.state, s.consumed + rest.consumed, s.added + rest.added, false)
  }

  /** Reports come in the order of the pairs. */
  lemma {:induction false} SweepPairsReports(driver: SiteDriver, st: OffsetState, terms: seq<string>, pairs: seq<(string, string)>, outcomes: seq<FetchOutcome>)
    requires SoundDriver(driver, terms)
    ensures var r := SweepPairs(driver, st, terms, pairs, outcomes);
            forall i :: 0 <= i < |r.reports| ==> (r.reports[i].country, r.reports[i].site) == pairs[i]
    decreases |pairs|
  {
    if |pairs| > 0 {
      var s := driver(st, pairs[0].0, pairs[0].1, outcomes);
      if s.status.SiteDone? {
        SweepPairsReports(driver, s.state, terms, pairs[1..], outcomes[s.consumed..]);
        assert forall i :: 1 <= i < |pairs| ==> pairs[1..][i - 1] == pairs[i];
      }
    }
  }

  /** A failed lookup happens at the first pair without a report. */
  lemma {:induction false} SweepPairsMissingAt(driver: SiteDriver, st: OffsetState, terms: seq<string>, pairs: seq<(string, string)>, outcomes: seq<FetchOutcome>)
    requires SoundDriver(driver, terms)
    ensures var r := SweepPairs(driver, st, terms, pairs, outcomes);
            r.status.MissingKey? ==>
              |r.reports| < |pairs| && (r.status.key.country, r.status.key.site) == pairs[|r.reports|]
    decreases |pairs|
  {
    if |pairs| > 0 {
      var s := driver(st, pairs[0].0, pairs[0].1, outcomes);
      if s.status.SiteDone? {
        var rest := SweepPairs(driver, s.state, terms, pairs[1..], outcomes[s.consumed..]);
        SweepPairsMissingAt(driver, s.state, terms, pairs[1..], outcomes[s.consumed..]);
        if rest.status.MissingKey? {
          assert pairs[1..][|rest.reports|] == pairs[1 + |rest.reports|];
        }
      }
    }
  }

  /** A failed lookup names one of the terms with a key the loaded map
      lacks. */
  lemma {:induction false} SweepPairsMissingKey(driver: SiteDriver, st: OffsetState, terms: seq<string>, pairs: seq<(string, string)>, outcomes: seq<FetchOutcome>)
    requires SoundDriver(driver, terms)
    ensures var r := SweepPairs(driver, st, terms, pairs, outcomes);
            r.status.MissingKey? ==> r.status.key.term in terms && r.status.key !in st.memory
    decreases |pairs|
  {
    if |pairs| > 0 {
      var s := driver(st, pairs[0].0, pairs[0].1, outcomes);
      assert KeepsMap(s, st, pairs[0].0, pairs[0].1, outcomes, terms);
      if s.status.SiteDone? {
        SweepPairsMissingKey(driver, s.state, terms, pairs[1..], outcomes[s.consumed..]);
      }
    }
  }

  /** scrape_all_sites_and_countries. The offsets are loaded from the file
      each sweep. Without a connection the sweep returns normally and
      scrapes nothing; with one, `closed` records the `finally` that
      closes it, whichever way the sweep leaves: it returns or raises. A
      sweep still retrying when the outcomes end has not left yet. */
  function Sweep(cfg: Settings, disk: Disk, connected: bool, outcomes: seq<FetchOutcome>): (r: SweepRun)
    ensures r.closed <==> connected && !r.status.SweepStalled?
    ensures !connected ==> r.status == NotConnected && r.state.disk == disk && r.consumed == 0 && r.added == 0 && r.reports == []
    ensures connected ==> !r.status.NotConnected? && r.consumed <= |outcomes|
    ensures r.status.MissingKey? ==> r.status.key !in LoadOffsets(disk, cfg.searchTerms, cfg.dualSite, cfg.indeedOnly)
  {
    var st := OffsetState(LoadOffsets(disk, cfg.searchTerms, cfg.dualSite, cfg.indeedOnly), disk);
    if !connected then SweepRun(NotConnected, [], st, 0, 0, false)
    else
      DriverIsSound(cfg.searchTerms, cfg.threshold);
      SweepPairsMissingKey(Driver(cfg.searchTerms, cfg.threshold), st, cfg.searchTerms, Visits(cfg, AllCountries(cfg)), outcomes);
      var r := SweepPairs(Driver(cfg.searchTerms, cfg.threshold), st, cfg.searchTerms, Visits(cfg, AllCountries(cfg)), outcomes);
      r.(closed := !r.status.SweepStalled?)
  }

  /** A sweep whose map holds every key it will look up never fails on a
      lookup. */
  lemma SweepFindsEveryKey(driver: SiteDriver, st: OffsetState, terms: seq<string>, pairs: seq<(string, string)>, outcomes: seq<FetchOutcome>)
    requires SoundDriver(driver, terms)
    requires forall i, t :: 0 <= i < |pairs| && t in terms ==> Key(pairs[i].0, pairs[i].1, t) in st.memory
    ensures !SweepPairs(driver, st, terms, pairs, outcomes).status.MissingKey?
  {
    var r := SweepPairs(driver, st, terms, pairs, outcomes);
    SweepPairsMissingAt(driver, st, terms, pairs, outcomes);
    SweepPairsMissingKey(driver, st, terms, pairs, outcomes);
  }

  /** When no country is in both classes, the default map holds every key
      the sweep looks up. */
  lemma DefaultCoversSweep(cfg: Settings)
    requires forall c :: c in cfg.indeedOnly ==> c !in cfg.dualSite
    ensures forall i, t :: 0 <= i < |Visits(cfg, AllCountries(cfg))| && t in cfg.searchTerms ==>
              Key(Visits(cfg, AllCountries(cfg))[i].0, Visits(cfg, AllCountries(cfg))[i].1, t)
                in DefaultOffsets(cfg.searchTerms, cfg.dualSite, cfg.indeedOnly)
  {
    var pairs := Visits(cfg, AllCountries(cfg));
    forall i | 0 <= i < |pairs|
      ensures pairs[i].0 in AllCountries(cfg) && pairs[i].1 in SiteList(cfg, pairs[i].0)
    {
      VisitsExactly(cfg, AllCountries(cfg), pairs[i].0, pairs[i].1);
    }
  }

  /** initialize_missing_files, for the offset file: a missing file is
      created holding an empty object. */
  function InitializeMissingFiles(disk: Disk): (d: Disk)
    ensures d.Written?
    ensures disk.NoFile? ==> d == Written(map[])
    ensures disk.Written? ==> d == disk
  {
    if disk.NoFile? then Written(map[]) else disk
  }

  /** The start-up step as validate_config expects it: a missing offset
      file is left missing, so that load_offsets builds the default map. */
  function InitializeMissingFilesRepaired(disk: Disk): Disk {
    disk
  }

  /** As written, a first run in a directory without an offset file fails
      at the very first lookup: the start-up step writes an empty map, the
      sweep loads it, and the first term of the first country is missing.
      Nothing is fetched. */
  lemma FreshStartFailsFirstLookup(cfg: Settings, outcomes: seq<FetchOutcome>)
    requires |AllCountries(cfg)| > 0 && |cfg.searchTerms| > 0
    ensures var r := Sweep(cfg, InitializeMissingFiles(NoFile), true, outcomes);
            && r.status == MissingKey(Key(AllCountries(cfg)[0], Indeed, cfg.searchTerms[0]))
            && r.consumed == 0 && r.reports == [] && r.closed
  {
    var countries := AllCountries(cfg);
    var pairs := Visits(cfg, countries);
    assert pairs[0] == (countries[0], Indeed);
    var st := OffsetState(map[], Written(map[]));
    var s := ProcessSite(st, countries[0], Indeed, cfg.searchTerms, outcomes, cfg.threshold);
    assert s.status == SiteMissingKey(cfg.searchTerms[0]);
  }

  /** With the repaired start-up step and no country in both classes, the
      first sweep finds every entry it looks up. */
  lemma RepairedStartFindsEveryKey(cfg: Settings, outcomes: seq<FetchOutcome>)
    requires forall c :: c in cfg.indeedOnly ==> c !in cfg.dualSite
    ensures !Sweep(cfg, InitializeMissingFilesRepaired(NoFile), true, outcomes).status.MissingKey?
  {
    DefaultCoversSweep(cfg);
    var m := LoadOffsets(NoFile, cfg.searchTerms, cfg.dualSite, cfg.indeedOnly);
    assert m == DefaultOffsets(cfg.searchTerms, cfg.dualSite, cfg.indeedOnly);
    var pairs := Visits(cfg, AllCountries(cfg));
    DriverIsSound(cfg.searchTerms, cfg.threshold);
    SweepFindsEveryKey(Driver(cfg.searchTerms, cfg.threshold), OffsetState(m, NoFile), cfg.searchTerms, pairs, outcomes);
  }

  /** The repaired start still fails when a country is in both classes:
      the default map has no Glassdoor entries for it, yet its site list
      names Glassdoor. Here "de" is scraped on Indeed and then fails on
      Glassdoor. */
  lemma RepairedStartFailsOnOverlap()
    ensures var cfg := Settings(["t"], ["de"], ["de"], [40], 2, 576);
            var r := Sweep(cfg, InitializeMissingFilesRepaired(NoFile), true, [Page([Persistence.Returned(true)], 40)]);
            r.status == MissingKey(Key("de", Glassdoor, "t"))
  {
    var cfg := Settings(["t"], ["de"], ["de"], [40], 2, 576);
    var outcomes := [Page([Persistence.Returned(true)], 40)];
    var m := LoadOffsets(NoFile, cfg.searchTerms, cfg.dualSite, cfg.indeedOnly);
    OverlapDropsGlassdoor(cfg.searchTerms, cfg.dualSite, cfg.indeedOnly, "de", "t");
    assert Key("de", Indeed, "t") in m && Key("de", Glassdoor, "t") !in m;
    var pairs := Visits(cfg, AllCountries(cfg));
    assert pairs[..2] == [("de", Indeed), ("de", Glassdoor)];
  }

}
