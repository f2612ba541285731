/** The per-term crawl: how one fetch result changes a key's offset entry
    (process_job_results, adjust_offsets) and the bounded retry loop around
    the fetch (scrape_search_term).

    The scraping library is an oracle: a stream of fetch outcomes consumed
    in order. A fetch either raises or returns a page; a page lists what
    each of its records' insert calls did, and carries the page size that
    adjust_offsets draws from the configured options. */
module Crawl {

  import opened Offsets
  import opened Persistence

  datatype FetchOutcome = FetchRaised | Page(inserts: seq<InsertCall>, draw: int)

  /** A page with at least one record. */
  predicate HasRows(o: FetchOutcome) {
    o.Page? && |o.inserts| > 0
  }

  /** A page with no records: pandas reports the frame as empty. */
  predicate IsEmptyPage(o: FetchOutcome) {
    o.Page? && |o.inserts| == 0
  }

  /** No page with records among the outcomes. */
  predicate Quiet(s: seq<FetchOutcome>) {
    forall i :: 0 <= i < |s| ==> !HasRows(s[i])
  }

  predicate EmptySeen(s: seq<FetchOutcome>) {
    exists i :: 0 <= i < |s| && IsEmptyPage(s[i])
  }

  /** Number of fetches that raised. */
  function RaisedIn(s: seq<FetchOutcome>): nat {
    multiset(s)[FetchRaised]
  }

  /** Every page size the oracle drew is one of the configured options, as
      random.choice guarantees. */
  predicate DrawsFrom(s: seq<FetchOutcome>, sizes: seq<int>) {
    forall i :: 0 <= i < |s| && s[i].Page? ==> s[i].draw in sizes
  }

  /** The empty-result branch of process_job_results for one entry: the
      counter becomes the passed-in count plus one, and once that reaches
      the threshold both cursor and counter go back to zero. */
  function AfterEmpty(e: OffsetEntry, passedCount: nat, threshold: int): (r: OffsetEntry)
    ensures r.totalCount == e.totalCount
    ensures passedCount + 1 >= threshold ==> r.offset == 0 && r.noResultsCount == 0
    ensures passedCount + 1 < threshold ==> r.offset == e.offset && r.noResultsCount == passedCount + 1
  {
    if passedCount + 1 >= threshold then e.(offset := 0, noResultsCount := 0)
    else e.(noResultsCount := passedCount + 1)
  }

  /** adjust_offsets for one entry: the cursor skips the records of the page
      that were not new, and the total grows by the new ones. */
  function AdjustOffsets(e: OffsetEntry, added: nat, draw: int): (r: OffsetEntry)
    ensures r.offset + added == e.offset + draw
    ensures r.totalCount == e.totalCount + added
    ensures r.noResultsCount == e.noResultsCount
  {
    e.(offset := e.offset + (draw - added), totalCount := e.totalCount + added)
  }

  datatype Processed = Processed(found: bool, state: OffsetState, added: nat)

  /** process_job_results for the page `inserts` at `key`. `passedCount` is
      the counter the caller passed in, which need not be the stored one. */
  function ProcessResults(st: OffsetState, key: Key, passedCount: nat, inserts: seq<InsertCall>, draw: int, threshold: int): (r: Processed)
    requires key in st.memory
    ensures r.state.memory.Keys == st.memory.Keys
    ensures forall k :: k in st.memory && k != key ==> r.state.memory[k] == st.memory[k]
    ensures r.found <==> |inserts| > 0
    ensures r.added == (if r.found then UniqueAdded(inserts) else 0) && r.added <= |inserts|
    ensures r.state.memory[key].totalCount == st.memory[key].totalCount + r.added
    ensures !r.found ==> r.state.memory[key] == AfterEmpty(st.memory[key], passedCount, threshold)
    ensures r.found ==> r.state.memory[key].noResultsCount == 0
    ensures r.found ==> r.state.memory[key].offset == st.memory[key].offset + draw - r.added
    ensures r.state.disk == (if r.found || passedCount + 1 >= threshold then Written(r.state.memory) else st.disk)
  {
    if |inserts| == 0 then
      var m := st.memory[key := AfterEmpty(st.memory[key], passedCount, threshold)];
      var next := OffsetState(m, st.disk);
      Processed(false, if passedCount + 1 >= threshold then next.Save() else next, 0)
    else
      var added := UniqueAdded(inserts);
      assert added <= |inserts| by { assert added <= |multiset(inserts)|; }
      var m := st.memory[key := AdjustOffsets(st.memory[key].(noResultsCount := 0), added, draw)];
      Processed(true, OffsetState(m, st.disk).Save(), added)
  }

  /** Two empty results in a row with the same passed-in count leave the
      entry as one does: the counter is recomputed from the passed-in
      value, not accumulated. */
  lemma AfterEmptyIdempotent(e: OffsetEntry, passedCount: nat, threshold: int)
    ensures AfterEmpty(AfterEmpty(e, passedCount, threshold), passedCount, threshold) == AfterEmpty(e, passedCount, threshold)
  {
  }

  /** Saturation: once the counter reaches the threshold the entry is reset
      whatever its cursor and counter were, and the total is kept. */
  lemma SaturationResets(st: OffsetState, key: Key, passedCount: nat, draw: int, threshold: int)
    requires key in st.memory && passedCount + 1 >= threshold
    ensures var r := ProcessResults(st, key, passedCount, [], draw, threshold);
            !r.found && r.state.memory[key] == OffsetEntry(0, st.memory[key].totalCount, 0)
            && r.state.disk == Written(r.state.memory)
  {
  }

  /** When a page holds no more records than the drawn page size, the
      cursor never moves backwards and moves by exactly the number of
      records that were not new. */
  lemma CursorAdvancesByDuplicates(st: OffsetState, key: Key, passedCount: nat, inserts: seq<InsertCall>, draw: int, threshold: int)
    requires key in st.memory && 0 < |inserts| <= draw
    ensures var r := ProcessResults(st, key, passedCount, inserts, draw, threshold);
            st.memory[key].offset <= r.state.memory[key].offset <= st.memory[key].offset + draw
            && r.state.memory[key].offset - st.memory[key].offset == draw - UniqueAdded(inserts)
  {
  }

  /** Worked examples, threshold 2: an empty fetch at {10, 4, 1} resets to
      {0, 4, 0}; a page of 40 records, 12 of them new, moves {10, 4, 1} to
      {38, 16, 0}. */
  lemma WorkedExamples(st: OffsetState, key: Key)
    requires key in st.memory && st.memory[key] == OffsetEntry(10, 4, 1)
    ensures ProcessResults(st, key, 1, [], 40, 2).state.memory[key] == OffsetEntry(0, 4, 0)
    ensures ProcessResults(st, key, 1, seq(12, _ => Returned(true)) + seq(28, _ => Returned(false)), 40, 2).state.memory[key]
            == OffsetEntry(38, 16, 0)
  {
    TrueThenFalse(12, 28);
  }

  lemma TrueThenFalse(a: nat, b: nat)
    ensures UniqueAdded(seq(a, _ => Returned(true)) + seq(b, _ => Returned(false))) == a
  {
    Repeated(a, Returned(true), Returned(true));
    Repeated(b, Returned(false), Returned(true));
  }

  lemma {:induction false} Repeated(n: nat, x: InsertCall, y: InsertCall)
    ensures multiset(seq(n, _ => x))[y] == if y == x then n else 0
  {
    if n > 0 {
      Repeated(n - 1, x, y);
      assert seq(n, _ => x) == seq(n - 1, _ => x) + [x];
    }
  }

  /** As written every insert call raises, so a page with records counts no
      new job: the cursor moves by the whole drawn page size and the total
      never grows. */
  lemma AsWrittenPageSkipsWholePage(st: OffsetState, key: Key, passedCount: nat, jobs: seq<Job>, draw: int, threshold: int)
    requires key in st.memory && |jobs| > 0
    ensures var r := ProcessResults(st, key, passedCount, CallsAsWritten(jobs), draw, threshold);
            r.found && r.added == 0
            && r.state.memory[key].offset == st.memory[key].offset + draw
            && r.state.memory[key].totalCount == st.memory[key].totalCount
  {
    AsWrittenAddsNothing(jobs);
  }

  /** Dropping the first outcome of a prefix. */
  lemma ShiftPrefix(o: seq<FetchOutcome>, c: nat)
    requires c < |o|
    ensures Quiet(o[..c + 1]) <==> !HasRows(o[0]) && Quiet(o[1..][..c])
    ensures RaisedIn(o[..c + 1]) == (if o[0].FetchRaised? then 1 else 0) + RaisedIn(o[1..][..c])
    ensures EmptySeen(o[..c + 1]) <==> IsEmptyPage(o[0]) || EmptySeen(o[1..][..c])
  {
    assert o[..c + 1] == [o[0]] + o[1..][..c];
    if EmptySeen(o[1..][..c]) {
      var i :| 0 <= i < c && IsEmptyPage(o[1..][..c][i]);
      assert o[..c + 1][i + 1] == o[1..][..c][i];
    }
    if EmptySeen(o[..c + 1]) && !IsEmptyPage(o[0]) {
      var i :| 0 <= i < c + 1 && IsEmptyPage(o[..c + 1][i]);
      assert o[1..][..c][i - 1] == o[..c + 1][i];
    }
  }

  lemma ShiftConsumed(o: seq<FetchOutcome>, c: nat)
    requires c < |o|
    ensures Quiet(o[..c + 1]) <==> !HasRows(o[0]) && Quiet(o[1..][..c])
    ensures RaisedIn(o[..c + 1]) == (if o[0].FetchRaised? then 1 else 0) + RaisedIn(o[1..][..c])
    ensures 0 < c ==> (Quiet(o[..c]) <==> !HasRows(o[0]) && Quiet(o[1..][..c - 1]))
  {
    ShiftPrefix(o, c);
    if 0 < c {
      ShiftPrefix(o, c - 1);
    }
  }

  datatype Verdict = Succeeded | Exhausted | Stalled

  datatype TermRun = TermRun(verdict: Verdict, state: OffsetState, consumed: nat, added: nat)

  /** scrape_search_term from the point where `retries` attempts have
      raised. A raised fetch costs an attempt; an empty page is processed
      and the loop fetches again without counting an attempt; a page with
      records ends the loop with True. `Exhausted` is the False returned
      after three raised attempts; `Stalled` means the outcome stream ended
      before the loop did. */
  function ScrapeTerm(st: OffsetState, key: Key, passedCount: nat, outcomes: seq<FetchOutcome>, retries: nat, threshold: int): (r: TermRun)
    requires key in st.memory && retries < 3
    ensures r.consumed <= |outcomes|
    ensures r.verdict.Stalled? ==> r.consumed == |outcomes|
    ensures r.verdict.Succeeded? ==>
      0 < r.consumed && HasRows(outcomes[r.consumed - 1]) && r.added == UniqueAdded(outcomes[r.consumed - 1].inserts)
    ensures r.verdict.Exhausted? ==> 0 < r.consumed && outcomes[r.consumed - 1].FetchRaised?
    ensures !r.verdict.Succeeded? ==> r.added == 0
    ensures r.state.memory.Keys == st.memory.Keys
    ensures forall k :: k in st.memory && k != key ==> r.state.memory[k] == st.memory[k]
    decreases |outcomes|
  {
    if |outcomes| == 0 then
      TermRun(Stalled, st, 0, 0)
    else if outcomes[0].FetchRaised? then
      if retries + 1 == 3 then
        TermRun(Exhausted, st, 1, 0)
      else
        var r := ScrapeTerm(st, key, passedCount, outcomes[1..], retries + 1, threshold);
        r.(consumed := r.consumed + 1)
    else
      var p := ProcessResults(st, key, passedCount, outcomes[0].inserts, outcomes[0].draw, threshold);
      if p.found then
        TermRun(Succeeded, p.state, 1, p.added)
      else
        var r := ScrapeTerm(p.state, key, passedCount, outcomes[1..], retries, threshold);
        r.(consumed := r.consumed + 1)
  }

  /** Which outcomes decide the retry loop, and how. It returns True at the
      first page with records provided fewer than three attempts raised
      before it; it returns False at the third raised attempt provided no
      page with records came first; otherwise it is still fetching when the
      stream ends. Empty pages do not count as attempts. */
  predicate Decides(o: seq<FetchOutcome>, retries: nat, v: Verdict, c: nat) {
    && c <= |o|
    && (v.Succeeded? ==>
          0 < c && HasRows(o[c - 1]) && Quiet(o[..c - 1]) && retries + RaisedIn(o[..c]) < 3)
    && (v.Exhausted? ==>
          0 < c && o[c - 1].FetchRaised? && Quiet(o[..c]) && retries + RaisedIn(o[..c]) == 3)
    && (v.Stalled? ==>
          c == |o| && Quiet(o) && retries + RaisedIn(o) < 3)
  }

  /** An outcome without records in front of a decided stream decides the
      longer stream the same way, one outcome later. */
  lemma DecidesStep(o: seq<FetchOutcome>, retries: nat, v: Verdict, c: nat)
    requires 0 < |o| && !HasRows(o[0])
    requires Decides(o[1..], retries + (if o[0].FetchRaised? then 1 else 0), v, c)
    ensures Decides(o, retries, v, c + 1)
  {
    ShiftConsumed(o, c);
    assert o[..|o|] == o;
    assert o[1..][..|o| - 1] == o[1..];
  }

  lemma {:induction false} ScrapeTermVerdict(st: OffsetState, key: Key, passedCount: nat, outcomes: seq<FetchOutcome>, retries: nat, threshold: int)
    requires key in st.memory && retries < 3
    ensures var r := ScrapeTerm(st, key, passedCount, outcomes, retries, threshold);
            Decides(outcomes, retries, r.verdict, r.consumed)
    decreases |outcomes|
  {
    if |outcomes| == 0 {
      assert outcomes[..0] == [];
    } else if outcomes[0].FetchRaised? && retries + 1 < 3 {
      ScrapeTermVerdict(st, key, passedCount, outcomes[1..], retries + 1, threshold);
      VerdictAfterRaised(st, key, passedCount, outcomes, retries, threshold);
    } else if IsEmptyPage(outcomes[0]) {
      var p := ProcessResults(st, key, passedCount, outcomes[0].inserts, outcomes[0].draw, threshold);
      ScrapeTermVerdict(p.state, key, passedCount, outcomes[1..], retries, threshold);
      VerdictAfterEmpty(st, key, passedCount, outcomes, retries, threshold);
    } else {
      ShiftConsumed(outcomes, 0);
    }
  }

  lemma VerdictAfterRaised(st: OffsetState, key: Key, passedCount: nat, outcomes: seq<FetchOutcome>, retries: nat, threshold: int)
    requires key in st.memory && 0 < |outcomes| && outcomes[0].FetchRaised? && retries + 1 < 3
    requires var q := ScrapeTerm(st, key, passedCount, outcomes[1..], retries + 1, threshold);
             Decides(outcomes[1..], retries + 1, q.verdict, q.consumed)
    ensures var r := ScrapeTerm(st, key, passedCount, outcomes, retries, threshold);
            Decides(outcomes, retries, r.verdict, r.consumed)
  {
    var q := ScrapeTerm(st, key, passedCount, outcomes[1..], retries + 1, threshold);
    DecidesStep(outcomes, retries, q.verdict, q.consumed);
  }

  lemma VerdictAfterEmpty(st: OffsetState, key: Key, passedCount: nat, outcomes: seq<FetchOutcome>, retries: nat, threshold: int)
    requires key in st.memory && 0 < |outcomes| && IsEmptyPage(outcomes[0]) && retries < 3
    requires var p := ProcessResults(st, key, passedCount, outcomes[0].inserts, outcomes[0].draw, threshold);
             var q := ScrapeTerm(p.state, key, passedCount, outcomes[1..], retries, threshold);
             Decides(outcomes[1..], retries, q.verdict, q.consumed)
    ensures var r := ScrapeTerm(st, key, passedCount, outcomes, retries, threshold);
            Decides(outcomes, retries, r.verdict, r.consumed)
  {
    var p := ProcessResults(st, key, passedCount, outcomes[0].inserts, outcomes[0].draw, threshold);
    var q := ScrapeTerm(p.state, key, passedCount, outcomes[1..], retries, threshold);
    DecidesStep(outcomes, retries, q.verdict, q.consumed);
  }

  /** The loop's decision depends on the outcomes alone, not on the offset
      state it is started from. */
  lemma {:induction false} VerdictIgnoresState(st1: OffsetState, st2: OffsetState, key: Key, passedCount: nat, outcomes: seq<FetchOutcome>, retries: nat, threshold: int)
    requires key in st1.memory && key in st2.memory && retries < 3
    ensures var r1 := ScrapeTerm(st1, key, passedCount, outcomes, retries, threshold);
            var r2 := ScrapeTerm(st2, key, passedCount, outcomes, retries, threshold);
            r1.verdict == r2.verdict && r1.consumed == r2.consumed && r1.added == r2.added
    decreases |outcomes|
  {
    if |outcomes| == 0 {
    } else if outcomes[0].FetchRaised? {
      if retries + 1 < 3 {
        VerdictIgnoresState(st1, st2, key, passedCount, outcomes[1..], retries + 1, threshold);
      }
    } else {
      var p1 := ProcessResults(st1, key, passedCount, outcomes[0].inserts, outcomes[0].draw, threshold);
      var p2 := ProcessResults(st2, key, passedCount, outcomes[0].inserts, outcomes[0].draw, threshold);
      if !p1.found {
        VerdictIgnoresState(p1.state, p2.state, key, passedCount, outcomes[1..], retries, threshold);
      }
    }
  }

  /** An empty page does not use up an attempt: the loop decides exactly as
      it would have without it, one outcome later. */
  lemma EmptyPageCostsNoAttempt(st: OffsetState, key: Key, passedCount: nat, draw: int, rest: seq<FetchOutcome>, retries: nat, threshold: int)
    requires key in st.memory && retries < 3
    ensures var r := ScrapeTerm(st, key, passedCount, [Page([], draw)] + rest, retries, threshold);
            var q := ScrapeTerm(st, key, passedCount, rest, retries, threshold);
            r.verdict == q.verdict && r.consumed == q.consumed + 1
  {
    var outcomes := [Page([], draw)] + rest;
    assert outcomes[1..] == rest;
    var p := ProcessResults(st, key, passedCount, [], draw, threshold);
    VerdictIgnoresState(p.state, st, key, passedCount, rest, retries, threshold);
  }

  /** A source that keeps answering with empty pages never lets the loop
      return: however many such outcomes there are, all are consumed and
      the loop is still running. */
  lemma EmptyForeverNeverReturns(st: OffsetState, key: Key, passedCount: nat, outcomes: seq<FetchOutcome>, retries: nat, threshold: int)
    requires key in st.memory && retries < 3
    requires forall i :: 0 <= i < |outcomes| ==> IsEmptyPage(outcomes[i])
    ensures ScrapeTerm(st, key, passedCount, outcomes, retries, threshold).verdict == Stalled
    ensures ScrapeTerm(st, key, passedCount, outcomes, retries, threshold).consumed == |outcomes|
  {
  }

  /** What the retry loop leaves at its key and in the offset file, for a
      run `r` that consumed a prefix of `outcomes`. */
  predicate LeavesEntry(st: OffsetState, key: Key, passedCount: nat, outcomes: seq<FetchOutcome>, threshold: int, r: TermRun)
    requires key in st.memory && key in r.state.memory && r.consumed <= |outcomes|
    requires r.verdict.Succeeded? ==> 0 < r.consumed && outcomes[r.consumed - 1].Page?
  {
    var emptied := EmptySeen(outcomes[..r.consumed]);
    var base := if emptied then AfterEmpty(st.memory[key], passedCount, threshold) else st.memory[key];
    && (r.verdict.Succeeded? ==>
          r.state.memory[key] == AdjustOffsets(base.(noResultsCount := 0), r.added, outcomes[r.consumed - 1].draw)
          && r.state.disk == Written(r.state.memory))
    && (!r.verdict.Succeeded? ==> r.state.memory[key] == base)
    && (!r.verdict.Succeeded? ==>
          r.state.disk == (if emptied && passedCount + 1 >= threshold then Written(r.state.memory) else st.disk))
  }

  /** A raised fetch in front changes nothing the loop leaves behind. */
  lemma LeavesEntryAfterRaised(st: OffsetState, key: Key, passedCount: nat, o: seq<FetchOutcome>, threshold: int, q: TermRun)
    requires 0 < |o| && o[0].FetchRaised? && key in st.memory && key in q.state.memory && q.consumed <= |o| - 1
    requires q.verdict.Succeeded? ==> 0 < q.consumed && o[1..][q.consumed - 1].Page?
    requires LeavesEntry(st, key, passedCount, o[1..], threshold, q)
    ensures LeavesEntry(st, key, passedCount, o, threshold, q.(consumed := q.consumed + 1))
  {
    ShiftPrefix(o, q.consumed);
  }

  /** An empty page in front acts like the empty pages after it. */
  lemma LeavesEntryAfterEmpty(st: OffsetState, mid: OffsetState, key: Key, passedCount: nat, o: seq<FetchOutcome>, threshold: int, q: TermRun)
    requires 0 < |o| && IsEmptyPage(o[0]) && key in st.memory && q.consumed <= |o| - 1
    requires mid.memory.Keys == st.memory.Keys && mid.memory.Keys == q.state.memory.Keys
    requires mid.memory[key] == AfterEmpty(st.memory[key], passedCount, threshold)
    requires forall k :: k in mid.memory && k != key ==> q.state.memory[k] == mid.memory[k]
    requires mid.disk == (if passedCount + 1 >= threshold then Written(mid.memory) else st.disk)
    requires q.verdict.Succeeded? ==> 0 < q.consumed && o[1..][q.consumed - 1].Page?
    requires LeavesEntry(mid, key, passedCount, o[1..], threshold, q)
    ensures LeavesEntry(st, key, passedCount, o, threshold, q.(consumed := q.consumed + 1))
  {
    ShiftPrefix(o, q.consumed);
    AfterEmptyIdempotent(st.memory[key], passedCount, threshold);
    if !q.verdict.Succeeded? && passedCount + 1 >= threshold {
      assert q.state.memory == mid.memory;
    }
  }

  /** What the loop leaves at its key. Every empty page rewrites the entry
      from the same passed-in count, so any number of them acts as one; a
      page with records then resets the counter and applies adjust_offsets
      to that entry. The offset file is written exactly when a page with
      records arrived or an empty page reached the threshold; a counter
      increment below the threshold stays in memory. */
  lemma {:induction false} ScrapeTermEntry(st: OffsetState, key: Key, passedCount: nat, outcomes: seq<FetchOutcome>, retries: nat, threshold: int)
    requires key in st.memory && retries < 3
    ensures LeavesEntry(st, key, passedCount, outcomes, threshold, ScrapeTerm(st, key, passedCount, outcomes, retries, threshold))
    decreases |outcomes|
  {
    if |outcomes| == 0 {
      assert outcomes[..0] == [];
    } else if outcomes[0].FetchRaised? {
      if retries + 1 < 3 {
        var q := ScrapeTerm(st, key, passedCount, outcomes[1..], retries + 1, threshold);
        ScrapeTermEntry(st, key, passedCount, outcomes[1..], retries + 1, threshold);
        LeavesEntryAfterRaised(st, key, passedCount, outcomes, threshold, q);
      } else {
        ShiftPrefix(outcomes, 0);
      }
    } else {
      var p := ProcessResults(st, key, passedCount, outcomes[0].inserts, outcomes[0].draw, threshold);
      if p.found {
        ShiftPrefix(outcomes, 0);
      } else {
        var q := ScrapeTerm(p.state, key, passedCount, outcomes[1..], retries, threshold);
        ScrapeTermEntry(p.state, key, passedCount, outcomes[1..], retries, threshold);
        LeavesEntryAfterEmpty(st, p.state, key, passedCount, outcomes, threshold, q);
      }
    }
  }

  /** A successful loop moves the cursor of its key by one of the page-size
      options less the unique jobs it added, counting from the entry as the
      empty pages before it left it, and grows the total by those jobs. */
  lemma SucceededDrawsAnOption(st: OffsetState, key: Key, passedCount: nat, outcomes: seq<FetchOutcome>, threshold: int, sizes: seq<int>)
    requires key in st.memory && DrawsFrom(outcomes, sizes)
    ensures var r := ScrapeTerm(st, key, passedCount, outcomes, 0, threshold);
            var base := if EmptySeen(outcomes[..r.consumed]) then AfterEmpty(st.memory[key], passedCount, threshold) else st.memory[key];
            r.verdict.Succeeded? ==>
              && (exists p :: p in sizes && r.state.memory[key].offset == base.offset + p - r.added)
              && r.state.memory[key].totalCount == st.memory[key].totalCount + r.added
              && r.state.memory[key].noResultsCount == 0
  {
    var r := ScrapeTerm(st, key, passedCount, outcomes, 0, threshold);
    ScrapeTermEntry(st, key, passedCount, outcomes, 0, threshold);
    if r.verdict.Succeeded? {
      var p := outcomes[r.consumed - 1].draw;
      assert p in sizes;
    }
  }

  /** Three raised fetches in a row make the loop return False after
      exactly those three outcomes, with nothing changed. */
  lemma ThreeRaisesExhaust(st: OffsetState, key: Key, outcomes: seq<FetchOutcome>)
    requires key in st.memory && |outcomes| >= 3
    requires outcomes[0] == FetchRaised && outcomes[1] == FetchRaised && outcomes[2] == FetchRaised
    ensures var t := ScrapeTerm(st, key, st.memory[key].noResultsCount, outcomes, 0, 2);
            t.verdict == Exhausted && t.consumed == 3 && t.state == st && t.added == 0
  {
    var n := st.memory[key].noResultsCount;
    var third := ScrapeTerm(st, key, n, outcomes[1..][1..], 2, 2);
    assert outcomes[1..][1..][0] == FetchRaised;
    assert third == TermRun(Exhausted, st, 1, 0);
    var second := ScrapeTerm(st, key, n, outcomes[1..], 1, 2);
    assert outcomes[1..][0] == FetchRaised;
    assert second == TermRun(Exhausted, st, 2, 0);
  }

  /** A page with one new record makes the loop return True at once and
      adds one to the key's total. */
  lemma OneNewJob(st: OffsetState, key: Key)
    requires key in st.memory
    ensures var u := ScrapeTerm(st, key, st.memory[key].noResultsCount, [Page([Returned(true)], 40)], 0, 2);
            && u.verdict == Succeeded && u.added == 1 && u.consumed == 1
            && u.state.memory[key].totalCount == st.memory[key].totalCount + 1
  {
    assert multiset([Returned(true)])[Returned(true)] == 1;
  }

}
