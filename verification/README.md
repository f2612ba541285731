# JobSpy crawl scheduler, modelled in Dafny

This project models the core of a job-listing scraper built on the JobSpy
library: the resumable crawl over every (country, site, search term) key
and its pure helpers.

- **Offset store** (`offsets.dfy`). A key's pagination entry holds the next
  cursor, the unique jobs found so far and the consecutive empty fetches.
  The store is the in-memory map plus the offset file. The default map is
  the one `load_offsets` builds when no file exists.
- **Persistence gateway** (`persistence.dfy`). The validity gate, duplicate
  check and insert of `insert_unique_job_data` work over a store of
  (title, company, description) triples. The batch counter is
  `save_jobs_to_database`.
- **Term scraper** (`crawl.dfy`). The result interpretation is
  `process_job_results` and `adjust_offsets`. The bounded retry loop is
  `scrape_search_term`. It is driven by a stream of fetch outcomes: a fetch
  raises, or it returns a page. A page lists what each record's insert call
  did and carries the page size drawn for `adjust_offsets`.
- **Site driver** (`sites.dfy`): `process_site_scraping` and its failed-term list.
- **Session orchestrator** (`session.dfy`). This is `scrape_all_sites_and_countries`
  with its sweep order, connection handling and lookup failures. It also
  holds the start-up step `initialize_missing_files`, as far as the offset
  file goes.
- **Run scheduler** (`scheduler.dfy`): `run_scraping_loop` and the rolling
  24-hour counter `monitor_24_hour_job_counts`.
- **Utilities**:
  - `proxies.dfy`: proxy formatting and round-robin rotation.
  - `salary.dfy`: the post-match arithmetic of `extract_salary`.
  - `job_types.dfy`: `extract_job_type`.
- **Configuration** (`config.dfy`): the constants of `src/config.py`.

Everything is a pure function over immutable datatypes. Several inputs come
from outside as oracles: fetch outcomes, per-record insert outcomes, the
proxy test's answer, whether the database connects, and an integer clock.
`random.choice` becomes a page size carried by each page outcome. The
predicate `Crawl.DrawsFrom` says that size is one of the options.
`time.sleep` is counted, not performed.

In these places the model follows the code:

- An empty page is not reported to the caller as a failed term. `scrape_search_term` fetches again at once, without using an attempt.
- An empty page below the threshold raises the counter in memory only. The offset file is written only when a page has records or the threshold is reached.
- The validity gate checks only that the three identity fields are present, not that they are non-empty.
- When the database does not connect, the sweep returns normally rather than raising.
- The cursor can move backwards: it moves by the drawn size minus the unique jobs, and nothing bounds the unique jobs by that size.

## Model

| member | source | states |
|---|---|---|
| Offsets.DefaultOffsets | src/jobspy/scrapers/utils.py:426-433 | every entry is zeroed; a key is present iff its term is configured and its site is Indeed for an Indeed-only country, or Indeed or Glassdoor for a dual-site country not also Indeed-only |
| Offsets.LoadOffsets | src/jobspy/scrapers/utils.py:421-433 | an existing file's map is returned unchanged; without a file the result is exactly the default map, every entry zeroed and for a configured term |
| Offsets.OverlapDropsGlassdoor | src/jobspy/scrapers/utils.py:426-433 | a country in both lists keeps its Indeed entries and loses its Glassdoor ones, because the right operand of the merge wins |
| Persistence.InsertUnique | src/jobspy/scrapers/utils.py:368-407 | rejected without a lookup iff the record is incomplete and not from LinkedIn; inserted iff it passes the gate and its triple is not stored; an insert adds exactly that triple; any other outcome leaves the store alone |
| Persistence.InsertTwiceStoresOnce | src/jobspy/scrapers/utils.py:378-407 | a second insert of the same record stores nothing more, and reports a duplicate when the record passed the gate |
| Persistence.GateIgnoresStore | src/jobspy/scrapers/utils.py:368-376 | an incomplete non-LinkedIn record is rejected whatever the store holds, and the store is unchanged |
| Persistence.SaveJobs | src/scraper.py:219-243 | the count is the number of insert calls that returned True; a raising call is skipped and the loop goes on; the count is at most the batch size, and equals it iff every call returned True |
| Persistence.InsertBatch | src/scraper.py:225-238 | with the three-argument call no insert raises, the store only grows, the calls that returned True number the new triples, and each new triple belongs to a batch record that passed the gate |
| Persistence.CallsAsWritten | src/scraper.py:228 | one call per record of the batch, and every one of them raises |
| Persistence.AsWrittenAddsNothing | src/scraper.py:228 | as written, a batch never counts a job |
| Persistence.RepairedBatchCountsNewRows | src/scraper.py:225-243 | the repaired batch counts exactly the triples it newly stored; one new valid record counts one |
| Crawl.AfterEmpty | src/scraper.py:193-204 | the counter becomes the passed-in count plus one; at the threshold both cursor and counter become zero; the total is kept |
| Crawl.AdjustOffsets | src/scraper.py:246-252 | the cursor grows by the drawn size less the unique jobs; the total grows by the unique jobs |
| Crawl.ProcessResults | src/scraper.py:189-216 | True iff the page has records; only the key's entry changes; an empty page applies the empty-result rule and writes the file only at the threshold; a page with records resets the counter, counts the insert calls that returned True, moves the cursor by the draw less that count and writes the file |
| Crawl.AfterEmptyIdempotent | src/scraper.py:193-204 | two empty results with the same passed-in count leave the entry as one does |
| Crawl.SaturationResets | src/scraper.py:199-203 | at the threshold the entry becomes {0, total, 0} whatever it was, and the file is written |
| Crawl.CursorAdvancesByDuplicates | src/scraper.py:246-252 | when a page holds no more records than the drawn size, the cursor moves forward by exactly the records that were not new |
| Crawl.WorkedExamples | src/scraper.py:189-216 | with threshold 2, an empty fetch at {10, 4, 1} gives {0, 4, 0}; a 40-record page with 12 new records gives {38, 16, 0} |
| Crawl.AsWrittenPageSkipsWholePage | src/scraper.py:206-216 | as written, a page with records counts no job, moves the cursor by the whole drawn size and leaves the total alone |
| Crawl.ScrapeTerm | src/scraper.py:154-186 | True only at a page with records, with that page's unique count; False only at a raised fetch; a stalled loop used every outcome; only the key's entry changes |
| Crawl.ScrapeTermVerdict | src/scraper.py:157-186 | True at the first page with records when fewer than three fetches raised before it; False at the third raised fetch when no page with records came first; otherwise still fetching when the outcomes end |
| Crawl.VerdictIgnoresState | src/scraper.py:157-186 | the loop's verdict, outcomes used and jobs added do not depend on the offset map |
| Crawl.EmptyPageCostsNoAttempt | src/scraper.py:159-183 | an empty page in front leaves the verdict unchanged and uses one more outcome |
| Crawl.EmptyForeverNeverReturns | src/scraper.py:159-179 | a source that answers only with empty pages never lets the loop return |
| Crawl.ScrapeTermEntry | src/scraper.py:159-216 | any number of empty pages acts as one on the entry; a page with records then resets the counter and adjusts the offsets; the file is written exactly at a page with records or at the threshold |
| Crawl.SucceededDrawsAnOption | src/scraper.py:246-252 | on success the cursor moves by one of the page-size options less the unique jobs, the total grows by them and the counter is zero |
| Sites.FailedTerms | src/scraper.py:125-149 | a term is listed iff its loop returned False; the list is empty iff no loop returned False |
| Sites.FailedTermsSingle | src/scraper.py:133-136 | one term is listed iff its loop returned False |
| Sites.FailedTermsAppend | src/scraper.py:125-136 | the failed terms of two runs of terms are those of the first followed by those of the second, so the list keeps term order |
| Sites.ProcessSite | src/scraper.py:122-150 | all terms are scraped when it completes; a missing entry stops it at that term, with no verdict for the term; a stalled loop is its last verdict; the map keeps its keys |
| Sites.ProcessSiteLooksUpFirst | src/scraper.py:127-133 | a term is scraped only after its entry was found |
| Sites.ProcessSiteStallsLast | src/scraper.py:127-136 | only the last verdict can be a stalled loop, and the driver stalls iff it is |
| Sites.ProcessSiteFrame | src/scraper.py:127-136 | entries of other (country, site) pairs are unchanged |
| Sites.ProcessSiteKeepsTotals | src/scraper.py:127-136 | no total count decreases |
| Crawl.ThreeRaisesExhaust | src/scraper.py:159-186 | three raised fetches make the loop return False, using three outcomes and changing nothing |
| Crawl.OneNewJob | src/scraper.py:176-178 | a page with one new record returns True and adds one to the key's total |
| Sites.EngineerFailsNurseSucceeds | src/scraper.py:127-150 | a term that exhausts its attempts is reported failed, and the next term still scrapes and counts its job |
| Session.AllCountries | src/scraper.py:112-114 | the dual-site countries followed by the Indeed-only ones, each list kept in order; a country is listed iff it is in either list |
| Session.SiteList | src/scraper.py:117-119 | exactly [Indeed, Glassdoor] for a dual-site country and [Indeed] otherwise: two sites iff dual-site, Indeed first, Glassdoor present iff dual-site, no other site |
| Session.CountryVisitsFollowSiteList | src/scraper.py:92-95 | the pairs the sweep visits for one country are that country with each site of get_site_list_for_country, in list order |
| Session.VisitsExactly | src/scraper.py:112-119 | a (country, site) pair is visited iff its country is listed and its site is on that country's site list |
| Session.SweepOrder | src/scraper.py:88-95 | without overlap, every dual-site country is visited on Indeed then Glassdoor in list order, then every Indeed-only country on Indeed |
| Session.DriverIsSound | src/scraper.py:122-150 | the site driver keeps the map's keys, uses no more outcomes than offered, and names a configured term whose key is missing when a lookup fails |
| Session.SweepPairs | src/scraper.py:87-99 | a completed sweep reports every pair; the map keeps its keys; no more outcomes are used than offered |
| Session.SweepPairsReports | src/scraper.py:94-98 | reports come in visiting order |
| Session.SweepPairsMissingAt | src/scraper.py:88-98 | a failed lookup happens at the first pair without a report |
| Session.SweepPairsMissingKey | src/scraper.py:129 | a failed lookup names a configured term whose key the loaded map lacks |
| Session.Sweep | src/scraper.py:65-109 | an opened connection is closed on every way out, and only then; without one nothing is scraped, used or written; a lookup failure names a key missing from the loaded offsets |
| Session.SweepFindsEveryKey | src/scraper.py:88-98 | a map holding every visited key never fails a lookup |
| Session.DefaultCoversSweep | src/jobspy/scrapers/utils.py:426-433 | without overlap, the default map holds every key the sweep looks up |
| Session.InitializeMissingFiles | src/scraper.py:34-45 | a missing offset file is created holding the empty map; an existing one is kept |
| Session.FreshStartFailsFirstLookup | src/scraper.py:36-44 | as written, a first sweep without an offset file fails at the first term of the first country and fetches nothing |
| Session.RepairedStartFindsEveryKey | src/scraper.py:57-59 | when no country is in both lists and the missing file is left for load_offsets to default, the first sweep finds every key |
| Session.RepairedStartFailsOnOverlap | src/jobspy/scrapers/utils.py:426-433 | with "de" in both lists, the repaired first sweep scrapes Indeed and then fails the Glassdoor lookup for "de" |
| Scheduler.Monitor24hRecords | src/scraper.py:289-317 | a record is appended iff a day has passed; it is the closed window, from the old start to one day later, with the running count; the window then restarts at now with a zero count; otherwise nothing changes; no job is lost or counted twice |
| Scheduler.RunFrom | src/scraper.py:327-348 | at most as many sweeps as run numbers left and environment runs supplied |
| Scheduler.RunScrapingLoop | src/scraper.py:320-348 | at most the configured number of sweeps |
| Scheduler.RunFromReturns | src/scraper.py:327-348 | every sweep but a last raising one returned; when the run numbers ran out, every run swept and returned |
| Scheduler.RunFromSleeps | src/scraper.py:340-342 | one sleep per returned sweep, except after the sweep of the last run number |
| Scheduler.RunFromProxy | src/scraper.py:331-345 | every sweep follows a passed proxy test; a failed test is what stopped the loop when it says so |
| Scheduler.RunFromLogGrows | src/scraper.py:304-309 | the daily log only grows, and earlier records are never rewritten |
| Scheduler.RunFromCountsEveryJob | src/scraper.py:299-315 | every job a sweep added is in exactly one daily record or in the running count |
| Scheduler.ShippedRunsAtMost | src/scraper.py:327-345 | with the shipped settings there are at most 576 sweeps, each after a passed proxy test, and every added job is counted once |
| Scheduler.ProxyFailureStopsAtOnce | src/scraper.py:331-345 | a failed first proxy test ends the loop before any sweep, with file and counter untouched |
| Scheduler.NextSweepReadsSavedFile | src/scraper.py:73 | at any run number, the next run starts from the offset file this run's sweep left and the outcomes it did not use |
| Proxies.FormatProxy | src/jobspy/scrapers/utils.py:49-53 | both keys get the same URL; a proxy with a scheme is kept; anything else gets http:// in front, from which it can be recovered |
| Proxies.FormatProxyIdempotent | src/jobspy/scrapers/utils.py:51-53 | formatting a formatted proxy changes nothing |
| Proxies.FormatProxyExamples | src/jobspy/scrapers/utils.py:49-53 | a bare host and port becomes an http:// URL; an https:// URL is kept |
| Proxies.InitCycle | src/jobspy/scrapers/utils.py:36-46 | a string gives a one-element cycle; a non-empty list gives its formatted elements in order; anything else gives no rotation |
| Proxies.NewRotor | src/jobspy/scrapers/utils.py:36-46 | a new session starts with a well-formed cycle position |
| Proxies.SelectProxy | src/jobspy/scrapers/utils.py:82-87 | with a cycle, the next pair is taken and the position advances by one, wrapping; localhost clears the proxies; without a cycle nothing changes |
| Proxies.Requests | src/jobspy/scrapers/utils.py:78-88 | any number of requests keeps the cycle and a well-formed position |
| Proxies.RoundRobin | src/jobspy/scrapers/utils.py:82-87 | after k requests the position is k places on, wrapping, and the k-th request used the pair k - 1 places after the start |
| Proxies.RequestStep | src/jobspy/scrapers/utils.py:82-87 | one more request uses the pair at the current position and moves the position on by one, wrapping |
| Proxies.ListRotation | src/jobspy/scrapers/utils.py:39-44 | a list of proxies is used in list order, one per request, starting over after the last |
| Proxies.StringUsedEveryTime | src/jobspy/scrapers/utils.py:37-38 | a single proxy string is used for every request |
| Proxies.NoRotationKeepsProxies | src/jobspy/scrapers/utils.py:97-103 | without a cycle, requests never change the session's proxies |
| Salary.Scaled | src/jobspy/scrapers/utils.py:238-240 | a k on either bound multiplies both by 1000, otherwise both are kept; the ratio of min to max is unchanged |
| Salary.Classify | src/jobspy/scrapers/utils.py:243-258 | hourly iff the min is under the hourly threshold; monthly iff it is at or over that and under the monthly one; yearly iff it is at or over both |
| Salary.AnnualMax | src/jobspy/scrapers/utils.py:243-258 | the max is annualised, with the min's interval factor, iff it is under the min's threshold |
| Salary.ExtractSalary | src/jobspy/scrapers/utils.py:205-272 | no input or no match gives nothing; a result has the interval the min decides, a non-zero annual max under the same threshold, annual values within the bounds, and annual or raw figures as asked |
| Salary.AcceptedExactly | src/jobspy/scrapers/utils.py:261-267 | a match gives a result iff the max is annualised, its annual value is non-zero and the bounds gate passes |
| Salary.KSuffixOnEitherBound | src/jobspy/scrapers/utils.py:238-240 | a k on the min, on the max, or on both gives the same result |
| Salary.EnforcedIsAnnualisedRaw | src/jobspy/scrapers/utils.py:268-271 | asking for annual figures does not change whether there is a result, and they are the raw figures times the factor |
| Salary.RangeIsIncreasing | src/jobspy/scrapers/utils.py:263-271 | a returned min is below its max, raw or annual |
| Salary.HourlyMinMonthlyMaxRejected | src/jobspy/scrapers/utils.py:243-262 | an hourly min with a max at or over the hourly threshold gives nothing |
| Salary.DefaultExamples | src/jobspy/scrapers/utils.py:205-212 | with the defaults, $50k-$80k is yearly 50000-80000; $20-$30 is hourly, raw or annual 41600-62400; $20-$400 gives nothing |
| JobTypes.Listing | src/jobspy/scrapers/utils.py:286-289 | the listing holds a type iff it is in the table and matched, and keeps the table order |
| JobTypes.ExtractJobType | src/jobspy/scrapers/utils.py:275-291 | a missing or empty description gives an empty list; otherwise nothing iff no type matched, and else the matched types in table order, each once |
| JobTypes.OrderedListingIsUnique | src/jobspy/scrapers/utils.py:279-291 | two table-ordered lists with the same types are equal |
| JobTypes.ExtractJobTypeIsTheOrderedListing | src/jobspy/scrapers/utils.py:279-291 | any table-ordered list of exactly the matched types is the result |
| JobTypes.FullTimeBeforeContract | src/jobspy/scrapers/utils.py:279-289 | full-time and contract matches are listed full-time first |

## Left out

- File I/O is reduced to an offset file that is missing or holds the last map written. The JSON encoding, `log_to_file`, the daily-count file, `validate_config` and `summarize_session` are not modelled.
- The network is an oracle: `scrape_jobs`, `get_proxy_url`, `test_proxy`, `connect_db`, the HTTP/TLS sessions and their retry adapters. Rows come back as the outcomes of their insert calls.
- The database is a set of identity triples. The SQL text, commits, rollbacks and psycopg2 behaviour are not modelled.
- `random.choice`, `time.sleep` and `datetime.now` are parameters: a drawn size carried by each page, a counted sleep, and an integer clock. The size drawn for the fetch at src/scraper.py:168 only shapes what the oracle returns. The pause between retries is not counted.
- Printing, logging, and the side-by-side duplicate report at src/jobspy/scrapers/utils.py:382-400 are not modelled.
- The regular expressions, `int(float(...))` parsing and `currency_parser` are abstracted. Salary amounts arrive as parsed naturals with their k flags, and job-type matches as a set of types.
- `get_enum_from_job_type`, `markdown_converter`, `extract_emails_from_text`, `create_logger`, `set_logger_level` and `remove_attributes` are not modelled.
- The `daily_job_count` global is written but never read by the core, so it is not modelled.
- Proxies passed by the scraper: `scrape_jobs` receives a Python set. `scrape_jobs` is not part of this model. The model assumes it hands that set on unchanged. A set is neither a string nor a list, so under that assumption it is the `OtherArg` case.
- Crawl.ScrapeTerm: every attempt asks for the offset read once at src/scraper.py:129 and passed at src/scraper.py:170, even after a threshold reset at src/scraper.py:201. The fetch oracle takes no offset, so the model does not record which offset each fetch asks for. The reset cursor is used only from the next sweep on.
- Crawl.ScrapeTerm: a source that keeps answering with empty pages loops forever in the program; the model runs until the finite outcome stream ends and reports `Stalled`.
- Sites.ProcessSite: the lookup of `no_results_count` defaults to 0 when the field is absent; entries here always carry the field.
- Scheduler.RunFrom: the slice of outcomes left for the next sweep is clamped for an arbitrary sweep step; for the real sweep the clamp never applies (Scheduler.SweepUsesOffered).
- Persistence.InsertUnique: the insert at src/jobspy/scrapers/utils.py:321 uses `ON CONFLICT (job_id) DO NOTHING`. A record whose job_id is already stored under a different triple still makes the function return True, with no row added. The store is keyed by triples only, so the model adds the triple there. `unique_jobs_added` can therefore count more rows than the database gained.
- Persistence.InsertUnique: a missing field is compared as a value equal to itself. In SQL `= NULL` never matches, so a LinkedIn record with a missing field would never be found as a duplicate.
- Session.RepairedStartFindsEveryKey: the repaired start is proved only when no country is in both lists. For a country in both, the merge at src/jobspy/scrapers/utils.py:426-433 keeps only its Indeed entries (Offsets.OverlapDropsGlassdoor). The sweep still visits it on Glassdoor, so the lookup at src/scraper.py:129 raises KeyError even after the repair (Session.RepairedStartFailsOnOverlap). countries.json is not part of this model, so nothing here rules such a country out.
- Start-up: src/scraper.py:23 imports `validate_proxy_config` from src/proxy.py, which defines only `test_proxy` and `get_proxy_url`. Read as written, the import fails before any modelled code runs. The model starts after the imports and leaves out the proxy check at src/scraper.py:362-363. This comes from reading the text only; nothing was executed.
- Persistence.IsValidJob: `pd.notna` is reduced to "present"; NaN and None are both absent, and an empty string counts as present.

## Findings

| source | as written | input that shows it | evidently intended | confidence | as-written member | corrected member |
|---|---|---|---|---|---|---|
| src/scraper.py:228 | `insert_unique_job_data` is called with four arguments, but src/jobspy/scrapers/utils.py:363 declares three, so every call raises TypeError, is rolled back and skipped | any non-empty page, e.g. one new valid record | pass `connection, job, 1`, so that new records are inserted and counted | high, not executed | Persistence.AsWrittenAddsNothing | Persistence.RepairedBatchCountsNewRows |
| src/scraper.py:36-44 | `initialize_missing_files` writes `{}` to a missing offsets.json; `load_offsets` then returns that empty map instead of the default, and the first lookup at src/scraper.py:129 raises KeyError | a first start in a directory without offsets.json, with at least one country and one term | when no country is in both lists: leave the file missing so that `load_offsets` builds the zeroed default map, as validate_config's comment at src/scraper.py:57-58 says | high, not executed | Session.FreshStartFailsFirstLookup | Session.RepairedStartFindsEveryKey |
