/** extract_job_type: which of the four listing types a description
    mentions. The case-insensitive keyword search is abstracted into the
    set of types whose pattern occurs in the description. */
module JobTypes {

  import opened Maybe

  datatype JobKind = FullTime | PartTime | Internship | Contract

  /** The order of the keyword table. */
  const KeywordOrder: seq<JobKind> := [FullTime, PartTime, Internship, Contract]

  function Rank(k: JobKind): nat {
    match k
    case FullTime => 0
    case PartTime => 1
    case Internship => 2
    case Contract => 3
  }

  /** Listed in table order, each at most once. */
  predicate InTableOrder(s: seq<JobKind>) {
    forall i, j :: 0 <= i < j < |s| ==> Rank(s[i]) < Rank(s[j])
  }

  /** The loop over the keyword table: the types of `table` in `matched`,
      in table order. */
  function Listing(table: seq<JobKind>, matched: set<JobKind>): (r: seq<JobKind>)
    ensures forall k :: k in r <==> k in table && k in matched
    ensures InTableOrder(table) ==> InTableOrder(r)
  {
    if |table| == 0 then []
    else
      var rest := Listing(table[1..], matched);
      assert table == [table[0]] + table[1..];
      if table[0] in matched then
        HeadPrecedes(table, rest);
        [table[0]] + rest
      else rest
  }

  /** In a table-ordered table the head ranks below every later entry, so
      it may be put in front of any list drawn from the rest. */
  lemma HeadPrecedes(table: seq<JobKind>, rest: seq<JobKind>)
    requires |table| > 0
    requires forall k :: k in rest ==> k in table[1..]
    requires InTableOrder(table) ==> InTableOrder(rest)
    ensures InTableOrder(table) ==> InTableOrder([table[0]] + rest)
  {
    if InTableOrder(table) {
      var r := [table[0]] + rest;
      forall i, j | 0 <= i < j < |r| ensures Rank(r[i]) < Rank(r[j]) {
        if i == 0 {
          assert r[j] == rest[j - 1] && rest[j - 1] in table[1..];
          var x :| 0 <= x < |table[1..]| && table[1..][x] == r[j];
          assert table[x + 1] == r[j];
        } else {
          assert r[i] == rest[i - 1] && r[j] == rest[j - 1];
        }
      }
    }
  }

  /** extract_job_type: an empty or missing description gives an empty
      list; otherwise the matched types in table order, each once, or None
      when none matched. */
  function ExtractJobType(description: Option<string>, matched: set<JobKind>): (r: Option<seq<JobKind>>)
    ensures (description.None? || description == Some("")) ==> r == Some([])
    ensures description.Some? && description.value != "" ==>
      && (r.None? <==> matched == {})
      && (r.Some? ==> InTableOrder(r.value) && forall k :: k in r.value <==> k in matched)
  {
    if description.None? || description.value == "" then Some([])
    else
      var listing := Listing(KeywordOrder, matched);
      assert forall k :: k in KeywordOrder by {
        forall k ensures k in KeywordOrder {
          assert KeywordOrder[Rank(k)] == k;
        }
      }
      assert InTableOrder(KeywordOrder) by {
        forall i, j | 0 <= i < j < |KeywordOrder| ensures Rank(KeywordOrder[i]) < Rank(KeywordOrder[j]) {
          assert forall x :: 0 <= x < 4 ==> Rank(KeywordOrder[x]) == x;
        }
      }
      if |listing| > 0 then
        assert listing[0] in matched;
        Some(listing)
      else
        assert forall k :: k !in matched by {
          forall k ensures k !in matched {
            assert k !in listing;
          }
        }
        None
  }

  /** The listing is the only duplicate-free, table-ordered list of the
      matched types. */
  lemma {:induction false} OrderedListingIsUnique(a: seq<JobKind>, b: seq<JobKind>)
    requires InTableOrder(a) && InTableOrder(b)
    requires forall k :: k in a <==> k in b
    ensures a == b
    decreases |a| + |b|
  {
    assert |a| > 0 ==> a[0] in b;
    assert |b| > 0 ==> b[0] in a;
    if |a| > 0 && |b| > 0 {
      assert a[0] in b && b[0] in a;
      var i :| 0 <= i < |b| && b[i] == a[0];
      var j :| 0 <= j < |a| && a[j] == b[0];
      assert Rank(b[0]) <= Rank(b[i]);
      assert Rank(a[0]) <= Rank(a[j]);
      assert a[0] == b[0];
      forall k ensures k in a[1..] <==> k in b[1..] {
        assert a == [a[0]] + a[1..] && b == [b[0]] + b[1..];
        if k in a[1..] {
          var x :| 0 <= x < |a[1..]| && a[1..][x] == k;
          assert a[x + 1] == k && Rank(a[0]) < Rank(k);
          assert k in b && k != b[0];
        }
        if k in b[1..] {
          var y :| 0 <= y < |b[1..]| && b[1..][y] == k;
          assert b[y + 1] == k && Rank(b[0]) < Rank(k);
          assert k in a && k != a[0];
        }
      }
      OrderedListingIsUnique(a[1..], b[1..]);
    }
  }

  /** Any table-ordered, duplicate-free list of exactly the matched types
      is what extract_job_type returns. */
  lemma ExtractJobTypeIsTheOrderedListing(description: string, matched: set<JobKind>, s: seq<JobKind>)
    requires description != "" && matched != {}
    requires InTableOrder(s) && forall k :: k in s <==> k in matched
    ensures ExtractJobType(Some(description), matched) == Some(s)
  {
    var r := ExtractJobType(Some(description), matched);
    OrderedListingIsUnique(r.value, s);
  }

  /** A description mentioning full-time and contract work, in any order of
      mention, is listed full-time first. */
  lemma FullTimeBeforeContract(description: string)
    requires description != ""
    ensures ExtractJobType(Some(description), {Contract, FullTime}) == Some([FullTime, Contract])
  {
    ExtractJobTypeIsTheOrderedListing(description, {Contract, FullTime}, [FullTime, Contract]);
  }

}
