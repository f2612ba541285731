/** The (site, country) driver, process_site_scraping: every configured
    search term in order, each through the retry loop, collecting the terms
    whose loop returned False. */
module Sites {

  import opened Offsets
  import opened Persistence
  import opened Crawl

  datatype SiteStatus =
    | SiteDone                      // every term was looked up and scraped
    | SiteMissingKey(term: string)  // the lookup of this term's entry raised
    | SiteStalled                   // a retry loop was still running when the outcomes ended

  /** The outcome of one driver call: the verdict of each term scraped, in
      term order. */
  datatype SiteRun = SiteRun(status: SiteStatus, verdicts: seq<Verdict>, state: OffsetState, consumed: nat, added: nat)

  /** The terms whose verdict is False, in term order. */
  function FailedTerms(terms: seq<string>, verdicts: seq<Verdict>): (failed: seq<string>)
    requires |terms| == |verdicts|
    ensures |failed| <= |terms|
    ensures forall t :: t in failed <==> exists i :: 0 <= i < |terms| && terms[i] == t && verdicts[i] == Exhausted
    ensures |failed| == 0 <==> Exhausted !in verdicts
  {
    if |terms| == 0 then []
    else
      var rest := FailedTerms(terms[1..], verdicts[1..]);
      assert verdicts == [verdicts[0]] + verdicts[1..];
      assert forall t :: t in rest <==> exists i :: 1 <= i < |terms| && terms[i] == t && verdicts[i] == Exhausted by {
        forall t | t in rest ensures exists i :: 1 <= i < |terms| && terms[i] == t && verdicts[i] == Exhausted {
          var j :| 0 <= j < |terms| - 1 && terms[1..][j] == t && verdicts[1..][j] == Exhausted;
          assert terms[j + 1] == t && verdicts[j + 1] == Exhausted;
        }
        forall t | exists i :: 1 <= i < |terms| && terms[i] == t && verdicts[i] == Exhausted ensures t in rest {
          var j :| 1 <= j < |terms| && terms[j] == t && verdicts[j] == Exhausted;
          assert terms[1..][j - 1] == t && verdicts[1..][j - 1] == Exhausted;
        }
      }
      (if verdicts[0] == Exhausted then [terms[0]] else []) + rest
  }

  /** A single term is listed exactly when its loop returned False. */
  lemma FailedTermsSingle(t: string, v: Verdict)
    ensures FailedTerms([t], [v]) == (if v == Exhausted then [t] else [])
  {
    assert FailedTerms([t][1..], [v][1..]) == [];
  }

  /** The list is built in term order: the failures of a longer run are
      those of its first part followed by those of the rest. Together with
      FailedTermsSingle this fixes both the order and the multiplicity. */
  lemma {:induction false} FailedTermsAppend(a: seq<string>, va: seq<Verdict>, b: seq<string>, vb: seq<Verdict>)
    requires |a| == |va| && |b| == |vb|
    ensures FailedTerms(a + b, va + vb) == FailedTerms(a, va) + FailedTerms(b, vb)
    decreases |a|
  {
    if |a| > 0 {
      assert (a + b)[1..] == a[1..] + b;
      assert (va + vb)[1..] == va[1..] + vb;
      FailedTermsAppend(a[1..], va[1..], b, vb);
    } else {
      assert a + b == b && va + vb == vb;
    }
  }

  /** The report's `failed_terms` for a driver run over `terms`. */
  function Failed(terms: seq<string>, r: SiteRun): seq<string>
    requires |r.verdicts| <= |terms|
  {
    FailedTerms(terms[..|r.verdicts|], r.verdicts)
  }

  /** process_site_scraping over `terms`. Each term's entry is looked up
      first, which raises when the key is missing; the retry loop starts
      from the stored counter and with no attempt used. A False from the
      loop is recorded and the next term is tried. */
  function ProcessSite(st: OffsetState, country: string, site: string, terms: seq<string>, outcomes: seq<FetchOutcome>, threshold: int): (r: SiteRun)
    ensures |r.verdicts| <= |terms| && r.consumed <= |outcomes|
    ensures r.state.memory.Keys == st.memory.Keys
    ensures r.status.SiteStalled? ==> 0 < |r.verdicts| && r.verdicts[|r.verdicts| - 1] == Stalled
    ensures r.status.SiteDone? ==> |r.verdicts| == |terms|
    ensures r.status.SiteMissingKey? ==>
      && |r.verdicts| < |terms|
      && r.status.term == terms[|r.verdicts|]
      && Key(country, site, r.status.term) !in st.memory
    decreases |terms|
  {
    if |terms| == 0 then SiteRun(SiteDone, [], st, 0, 0)
    else
      var key := Key(country, site, terms[0]);
      if key !in st.memory then
        SiteRun(SiteMissingKey(terms[0]), [], st, 0, 0)
      else
        var t := ScrapeTerm(st, key, st.memory[key].noResultsCount, outcomes, 0, threshold);
        if t.verdict.Stalled? then
          SiteRun(SiteStalled, [Stalled], t.state, t.consumed, t.added)
        else
          var rest := ProcessSite(t.state, country, site, terms[1..], outcomes[t.consumed..], threshold);
          SiteRun(rest.status, [t.verdict] + rest.verdicts, rest.state, t.consumed + rest.consumed, t.added + rest.added)
  }

  /** The driver scrapes a term only after its entry was found. */
  lemma {:induction false} ProcessSiteLooksUpFirst(st: OffsetState, country: string, site: string, terms: seq<string>, outcomes: seq<FetchOutcome>, threshold: int)
    ensures var r := ProcessSite(st, country, site, terms, outcomes, threshold);
            forall i :: 0 <= i < |r.verdicts| ==> Key(country, site, terms[i]) in st.memory
    decreases |terms|
  {
    if |terms| > 0 {
      var key := Key(country, site, terms[0]);
      if key in st.memory {
        var t := ScrapeTerm(st, key, st.memory[key].noResultsCount, outcomes, 0, threshold);
        if !t.verdict.Stalled? {
          ProcessSiteLooksUpFirst(t.state, country, site, terms[1..], outcomes[t.consumed..], threshold);
          var rest := ProcessSite(t.state, country, site, terms[1..], outcomes[t.consumed..], threshold);
          assert forall i :: 1 <= i < 1 + |rest.verdicts| ==> terms[i] == terms[1..][i - 1];
        }
      }
    }
  }

  /** The driver stops at the first retry loop that is still running when
      the outcomes end, and only there. */
  lemma {:induction false} ProcessSiteStallsLast(st: OffsetState, country: string, site: string, terms: seq<string>, outcomes: seq<FetchOutcome>, threshold: int)
    ensures var r := ProcessSite(st, country, site, terms, outcomes, threshold);
            && (forall i :: 0 <= i < |r.verdicts| - 1 ==> r.verdicts[i] != Stalled)
            && (r.status.SiteStalled? <==> 0 < |r.verdicts| && r.verdicts[|r.verdicts| - 1] == Stalled)
    decreases |terms|
  {
    if |terms| > 0 {
      var key := Key(country, site, terms[0]);
      if key in st.memory {
        var t := ScrapeTerm(st, key, st.memory[key].noResultsCount, outcomes, 0, threshold);
        if !t.verdict.Stalled? {
          ProcessSiteStallsLast(t.state, country, site, terms[1..], outcomes[t.consumed..], threshold);
        }
      }
    }
  }

  /** The driver touches only its own (country, site) entries. */
  lemma {:induction false} ProcessSiteFrame(st: OffsetState, country: string, site: string, terms: seq<string>, outcomes: seq<FetchOutcome>, threshold: int)
    ensures var r := ProcessSite(st, country, site, terms, outcomes, threshold);
            forall k :: k in st.memory && (k.country != country || k.site != site) ==> r.state.memory[k] == st.memory[k]
    decreases |terms|
  {
    if |terms| > 0 {
      var key := Key(country, site, terms[0]);
      if key in st.memory {
        var t := ScrapeTerm(st, key, st.memory[key].noResultsCount, outcomes, 0, threshold);
        if !t.verdict.Stalled? {
          ProcessSiteFrame(t.state, country, site, terms[1..], outcomes[t.consumed..], threshold);
        }
      }
    }
  }

  /** No entry loses unique jobs: every total count is at least what it was. */
  lemma {:induction false} ProcessSiteKeepsTotals(st: OffsetState, country: string, site: string, terms: seq<string>, outcomes: seq<FetchOutcome>, threshold: int)
    ensures var r := ProcessSite(st, country, site, terms, outcomes, threshold);
            forall k :: k in st.memory ==> r.state.memory[k].totalCount >= st.memory[k].totalCount
    decreases |terms|
  {
    if |terms| > 0 {
      var key := Key(country, site, terms[0]);
      if key in st.memory {
        var t := ScrapeTerm(st, key, st.memory[key].noResultsCount, outcomes, 0, threshold);
        ScrapeTermEntry(st, key, st.memory[key].noResultsCount, outcomes, 0, threshold);
        assert t.state.memory[key].totalCount >= st.memory[key].totalCount;
        if !t.verdict.Stalled? {
          ProcessSiteKeepsTotals(t.state, country, site, terms[1..], outcomes[t.consumed..], threshold);
        }
      }
    }
  }

  /** Term-level fault isolation: "engineer" exhausts its three attempts,
      "nurse" then gets a page with one new job. The report lists only
      "engineer", and the job found for "nurse" is still counted at its key. */
  lemma EngineerFailsNurseSucceeds(st: OffsetState, country: string, site: string)
    requires Key(country, site, "engineer") in st.memory && Key(country, site, "nurse") in st.memory
    ensures var r := ProcessSite(st, country, site, ["engineer", "nurse"],
                                 [FetchRaised, FetchRaised, FetchRaised, Page([Returned(true)], 40)], 2);
            && r.status == SiteDone
            && Failed(["engineer", "nurse"], r) == ["engineer"]
            && r.state.memory[Key(country, site, "nurse")].totalCount == st.memory[Key(country, site, "nurse")].totalCount + 1
  {
    var outcomes := [FetchRaised, FetchRaised, FetchRaised, Page([Returned(true)], 40)];
    var engineer := Key(country, site, "engineer");
    var nurse := Key(country, site, "nurse");
    ThreeRaisesExhaust(st, engineer, outcomes);
    var t := ScrapeTerm(st, engineer, st.memory[engineer].noResultsCount, outcomes, 0, 2);
    assert outcomes[3..] == [Page([Returned(true)], 40)];
    OneNewJob(st, nurse);
    var u := ScrapeTerm(st, nurse, st.memory[nurse].noResultsCount, [Page([Returned(true)], 40)], 0, 2);
    var terms := ["engineer", "nurse"];
    assert terms[1..] == ["nurse"] && terms[1..][1..] == [];
    var last := ProcessSite(u.state, country, site, [], [], 2);
    assert last == SiteRun(SiteDone, [], u.state, 0, 0);
    var second := ProcessSite(st, country, site, ["nurse"], [Page([Returned(true)], 40)], 2);
    assert second == SiteRun(SiteDone, [Succeeded], u.state, 1, 1);
    var r := ProcessSite(st, country, site, terms, outcomes, 2);
    assert r == SiteRun(SiteDone, [Exhausted, Succeeded], u.state, 4, 1);
    assert terms[..2] == terms;
  }

}
