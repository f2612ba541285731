/** The scraper's tunable parameters. The constants are the defaults of
    src/config.py; the country and search-term lists come from JSON files,
    so they are parameters of the model. */
module Config {

  /** Page sizes a fetch may ask for; one is drawn at random per use. */
  const ResultsPerPageOptions: seq<int> := [40]

  /** Consecutive empty fetches after which a key's cursor is reset. */
  const NoResultThreshold: int := 2

  /** Number of sweeps the run loop performs at most. */
  const MaxRuns: nat := 576

  /** Pause between two runs, in seconds. */
  const IntervalSeconds: nat := 150

  datatype Settings = Settings(
    searchTerms: seq<string>,
    dualSite: seq<string>,      // countries scraped on Indeed and Glassdoor
    indeedOnly: seq<string>,    // countries scraped on Indeed alone
    pageSizes: seq<int>,
    threshold: int,
    maxRuns: nat
  )

  /** The configuration shipped with the repository, for the given lists. */
  function Shipped(terms: seq<string>, dual: seq<string>, single: seq<string>): Settings
  {
    Settings(terms, dual, single, ResultsPerPageOptions, NoResultThreshold, MaxRuns)
  }

}
