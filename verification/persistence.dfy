/** The persistence gateway: the validity gate, the duplicate check and the
    insert of insert_unique_job_data over a store of identity triples, and
    the batch loop of save_jobs_to_database over per-record call outcomes. */
module Persistence {

  import opened Maybe

  /** A scraped record, reduced to what the gateway inspects. A field that
      pandas reports as missing (NaN or None) is `None`. */
  datatype Job = Job(site: string, title: Option<string>, company: Option<string>, description: Option<string>)

  /** The composite key the duplicate check looks up. */
  datatype Identity = Identity(title: Option<string>, company: Option<string>, description: Option<string>)

  /** The jobs table, seen through the duplicate check: the set of stored
      identities. */
  type Store = set<Identity>

  const LinkedIn := "linkedin"

  function IdentityOf(job: Job): Identity {
    Identity(job.title, job.company, job.description)
  }

  /** is_valid_job: all three identity fields are present. */
  predicate IsValidJob(job: Job) {
    job.title.Some? && job.company.Some? && job.description.Some?
  }

  /** A record reaches the duplicate check when it is valid or comes from
      LinkedIn, whose records skip validation. */
  predicate PassesGate(job: Job) {
    IsValidJob(job) || job.site == LinkedIn
  }

  datatype Decision = SkippedInvalid | SkippedDuplicate | Inserted

  datatype InsertResult = InsertResult(decision: Decision, store: Store)

  /** insert_unique_job_data: reject an incomplete non-LinkedIn record
      without a lookup, skip a record whose identity is stored, insert
      anything else. The source returns True exactly for `Inserted`. */
  function InsertUnique(store: Store, job: Job): (r: InsertResult)
    ensures r.decision.SkippedInvalid? <==> !PassesGate(job)
    ensures r.decision.Inserted? <==> PassesGate(job) && IdentityOf(job) !in store
    ensures r.decision.Inserted? ==> r.store == store + {IdentityOf(job)} && |r.store| == |store| + 1
    ensures !r.decision.Inserted? ==> r.store == store
    ensures PassesGate(job) ==> IdentityOf(job) in r.store
  {
    if !IsValidJob(job) && job.site != LinkedIn then
      InsertResult(SkippedInvalid, store)
    else if IdentityOf(job) in store then
      InsertResult(SkippedDuplicate, store)
    else
      InsertResult(Inserted, store + {IdentityOf(job)})
  }

  /** Inserting the same record twice stores one copy: the second attempt
      reports a duplicate (or the same rejection) and leaves the store alone. */
  lemma InsertTwiceStoresOnce(store: Store, job: Job)
    ensures var first := InsertUnique(store, job);
            var second := InsertUnique(first.store, job);
            !second.decision.Inserted? && second.store == first.store
            && (PassesGate(job) ==> second.decision == SkippedDuplicate)
  {
  }

  /** A non-LinkedIn record missing a field never reaches the duplicate
      check: its outcome does not depend on the store, and the store is
      unchanged. */
  lemma GateIgnoresStore(s1: Store, s2: Store, job: Job)
    requires !IsValidJob(job) && job.site != LinkedIn
    ensures InsertUnique(s1, job) == InsertResult(SkippedInvalid, s1)
    ensures InsertUnique(s1, job).decision == InsertUnique(s2, job).decision
  {
  }

  /** What one call of insert_unique_job_data did inside the batch loop: it
      returned a boolean, or it raised and the transaction was rolled back. */
  datatype InsertCall = Returned(inserted: bool) | Raised

  /** The number of calls that returned True. */
  function UniqueAdded(calls: seq<InsertCall>): nat {
    multiset(calls)[Returned(true)]
  }

  /** save_jobs_to_database: walk the batch, count the records whose insert
      returned True, and continue past a record whose insert raised. */
  method SaveJobs(calls: seq<InsertCall>) returns (added: nat)
    ensures added == UniqueAdded(calls)
    ensures added <= |calls|
    ensures added == |calls| <==> forall i :: 0 <= i < |calls| ==> calls[i] == Returned(true)
  {
    added := 0;
    var i := 0;
    while i < |calls|
      invariant i <= |calls|
      invariant added == multiset(calls[..i])[Returned(true)]
      invariant added <= i
      invariant added == i <==> forall j :: 0 <= j < i ==> calls[j] == Returned(true)
    {
      assert calls[..i + 1] == calls[..i] + [calls[i]];
      if calls[i] == Returned(true) {
        added := added + 1;
      }
      i := i + 1;
    }
    assert calls[..i] == calls;
  }

  /** The calls the repaired loop makes when every record goes through the
      three-argument insert_unique_job_data, with the store it leaves. */
  function InsertBatch(store: Store, jobs: seq<Job>): (r: (seq<InsertCall>, Store))
    ensures |r.0| == |jobs|
    ensures store <= r.1
    ensures UniqueAdded(r.0) == |r.1| - |store|
    ensures forall i :: 0 <= i < |jobs| ==> r.0[i] != Raised
    ensures forall id :: id in r.1 - store ==> exists i :: 0 <= i < |jobs| && PassesGate(jobs[i]) && IdentityOf(jobs[i]) == id
    decreases |jobs|
  {
    if |jobs| == 0 then ([], store)
    else
      var first := InsertUnique(store, jobs[0]);
      var rest := InsertBatch(first.store, jobs[1..]);
      var calls := [Returned(first.decision.Inserted?)] + rest.0;
      forall id | id in rest.1 - store
        ensures exists i :: 0 <= i < |jobs| && PassesGate(jobs[i]) && IdentityOf(jobs[i]) == id
      {
        if id in first.store {
          assert PassesGate(jobs[0]) && IdentityOf(jobs[0]) == id;
        } else {
          assert id in rest.1 - first.store;
          var j :| 0 <= j < |jobs[1..]| && PassesGate(jobs[1..][j]) && IdentityOf(jobs[1..][j]) == id;
          assert jobs[1..][j] == jobs[j + 1];
        }
      }
      (calls, rest.1)
  }

  /** The call at src/scraper.py:228 passes four arguments to a function
      declared with three, so Python raises TypeError for every record
      before the function body runs. */
  function CallsAsWritten(jobs: seq<Job>): (calls: seq<InsertCall>)
    ensures |calls| == |jobs|
    ensures forall i :: 0 <= i < |calls| ==> calls[i] == Raised
  {
    seq(|jobs|, i => Raised)
  }

  /** As written, a batch never counts a job, whatever it holds. */
  lemma AsWrittenAddsNothing(jobs: seq<Job>)
    ensures UniqueAdded(CallsAsWritten(jobs)) == 0
  {
    assert Returned(true) !in CallsAsWritten(jobs);
  }

  /** The repaired batch counts exactly the records it newly stored, and a
      batch of one new valid job stores it where the as-written call stores
      nothing. */
  lemma RepairedBatchCountsNewRows(store: Store, jobs: seq<Job>)
    ensures UniqueAdded(InsertBatch(store, jobs).0) == |InsertBatch(store, jobs).1| - |store|
    ensures UniqueAdded(InsertBatch({}, [Job("indeed", Some("t"), Some("c"), Some("d"))]).0) == 1
  {
    var job := Job("indeed", Some("t"), Some("c"), Some("d"));
    assert InsertBatch({}, [job]).1 == {IdentityOf(job)};
  }

}
