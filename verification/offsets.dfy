/** The offset store: per (country, site, search term) pagination state, the
    in-memory map the crawl mutates, and the offset file it is saved to.
    The source keeps a nested dictionary country -> site -> term -> entry;
    here the three levels are flattened into one key, so a lookup that
    fails at any level is a key missing from the map. */
module Offsets {

  /** Pagination state of one key: the next cursor, the unique jobs found so
      far, and the number of consecutive empty fetches. */
  datatype OffsetEntry = OffsetEntry(offset: int, totalCount: nat, noResultsCount: nat)

  datatype Key = Key(country: string, site: string, term: string)

  type OffsetMap = map<Key, OffsetEntry>

  const Zeroed := OffsetEntry(0, 0, 0)

  const Indeed := "indeed"
  const Glassdoor := "glassdoor"

  /** The offset file: not there yet, or holding the map last written. */
  datatype Disk = NoFile | Written(offsets: OffsetMap)

  /** The map the crawl works on together with what the offset file holds.
      Saving writes the whole in-memory map. */
  datatype OffsetState = OffsetState(memory: OffsetMap, disk: Disk) {
    function Save(): OffsetState {
      OffsetState(memory, Written(memory))
    }
  }

  /** Every (country, site, term) key for the given lists. */
  function KeysFor(countries: seq<string>, sites: seq<string>, terms: seq<string>): set<Key>
  {
    set c, s, t | c in countries && s in sites && t in terms :: Key(c, s, t)
  }

  /** The map load_offsets synthesises when there is no offset file: one
      dictionary with Indeed and Glassdoor entries for the dual-site
      countries, merged with `|` into one with Indeed entries for the
      Indeed-only countries. The merge replaces a country's whole
      dictionary, so a country in both lists keeps only its Indeed entries. */
  function DefaultOffsets(terms: seq<string>, dual: seq<string>, single: seq<string>): (m: OffsetMap)
    ensures forall k :: k in m ==> m[k] == Zeroed
    ensures forall c, s, t ::
      Key(c, s, t) in m <==>
        t in terms &&
        (if c in single then s == Indeed else c in dual && (s == Indeed || s == Glassdoor))
  {
    var left := set k | k in KeysFor(dual, [Indeed, Glassdoor], terms) && k.country !in single;
    var right := KeysFor(single, [Indeed], terms);
    map k | k in left + right :: Zeroed
  }

  /** load_offsets: the saved map when the file exists, the default map
      otherwise. */
  function LoadOffsets(disk: Disk, terms: seq<string>, dual: seq<string>, single: seq<string>): (m: OffsetMap)
    ensures disk.Written? ==> m == disk.offsets
    ensures disk.NoFile? ==> m == DefaultOffsets(terms, dual, single)
    ensures disk.NoFile? ==> forall k :: k in m ==> m[k] == Zeroed && k.term in terms
  {
    match disk
    case Written(saved) => saved
    case NoFile => DefaultOffsets(terms, dual, single)
  }

  /** A country listed in both classes loses its Glassdoor entries in the
      default map: the right operand of the merge wins. */
  lemma OverlapDropsGlassdoor(terms: seq<string>, dual: seq<string>, single: seq<string>, c: string, t: string)
    requires c in dual && c in single && t in terms
    ensures Key(c, Indeed, t) in DefaultOffsets(terms, dual, single)
    ensures Key(c, Glassdoor, t) !in DefaultOffsets(terms, dual, single)
  {
  }

}
