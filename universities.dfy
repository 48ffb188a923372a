/**
 * The university directory client: a read-through cache of the full
 * university collection kept in the browser's local key-value store under
 * two keys, "universities" (the snapshot) and "universitiesTimestamp" (the
 * capture time in milliseconds), in front of a remote store that answers a
 * full-collection query and a point query by acronym.
 *
 * The remote store and the clock are parameters: a method is handed the
 * answer the remote store gives and the clock readings it takes, and says in
 * its `sent` result which query, if any, it issued. JSON serialisation and
 * `parseInt` are exact round trips, so the store holds values, not text.
 */
module Universities {
  import opened Wrappers
  import Ascii

  /** A row of the remote `university` table. */
  datatype University = University(
    id: int,
    acronym: string,
    name: string,
    location: string,
    website: string,
    picture: string)

  /** The error a remote call reports (it is thrown to the caller). */
  datatype FetchError = FetchError(message: string)

  /** The queries this client sends to the remote store. */
  datatype Query =
    | AllOrderedByName          // select id, acronym, name, picture order by name ascending
    | ByAcronym(acronym: string) // select * where acronym = ..., at most one row

  /** What a key of the local store holds once JSON and `parseInt` are read as identities. */
  datatype Stored = Rows(rows: seq<University>) | Millis(ms: int)

  const UniversitiesKey: string := "universities"
  const TimestampKey: string := "universitiesTimestamp"

  /** A snapshot is fresh while it is younger than five minutes. */
  const FreshnessMs: int := 5 * 60 * 1000

  /** The two keys hold the kind of value this client writes to them. */
  predicate WellTyped(store: map<string, Stored>)
  {
    && (UniversitiesKey in store ==> store[UniversitiesKey].Rows?)
    && (TimestampKey in store ==> store[TimestampKey].Millis?)
  }

  /** `localStorage.getItem("universities")`, parsed. */
  function Snapshot(store: map<string, Stored>): Option<seq<University>>
  {
    if UniversitiesKey in store && store[UniversitiesKey].Rows? then Some(store[UniversitiesKey].rows) else None
  }

  /** `localStorage.getItem("universitiesTimestamp")`, parsed. */
  function Timestamp(store: map<string, Stored>): Option<int>
  {
    if TimestampKey in store && store[TimestampKey].Millis? then Some(store[TimestampKey].ms) else None
  }

  /** Both keys are present and the snapshot's age at `now` is strictly below the threshold. */
  predicate IsFresh(store: map<string, Stored>, now: int)
    // a missing snapshot or a missing timestamp is always a miss
    ensures IsFresh(store, now) ==> UniversitiesKey in store && TimestampKey in store
    // an age of `FreshnessMs` (300000 ms) or more is a miss
    ensures IsFresh(store, now) ==> TimestampKey in store && store[TimestampKey].Millis?
                                    && now < store[TimestampKey].ms + FreshnessMs
  {
    Snapshot(store).Some? && Timestamp(store).Some? && now - Timestamp(store).value < FreshnessMs
  }

  /** The store after a successful refresh: both keys overwritten, nothing else touched. */
  function Refreshed(store: map<string, Stored>, rows: seq<University>, at: int): (r: map<string, Stored>)
    ensures WellTyped(store) ==> WellTyped(r)
    ensures Snapshot(r) == Some(rows) && Timestamp(r) == Some(at)
    ensures r.Keys == store.Keys + {UniversitiesKey, TimestampKey}
    ensures forall k :: k in store && k != UniversitiesKey && k != TimestampKey ==> r[k] == store[k]
  {
    store[UniversitiesKey := Rows(rows)][TimestampKey := Millis(at)]
  }

  /** The `.find` predicate: acronyms compared after lower-casing both. */
  predicate SameAcronym(u: University, acronym: string)
    ensures SameAcronym(u, acronym) <==>
              && |u.acronym| == |acronym|
              && forall i :: 0 <= i < |acronym| ==> Ascii.SameIgnoringCase(u.acronym[i], acronym[i])
  {
    Ascii.LowerEqualIff(u.acronym, acronym);
    Ascii.ToLower(u.acronym) == Ascii.ToLower(acronym)
  }

  /** Index of the first row whose acronym matches, or `|rows|` when none does. */
  function FirstMatch(rows: seq<University>, acronym: string): (k: nat)
    ensures k <= |rows|
    ensures forall j :: 0 <= j < k ==> !SameAcronym(rows[j], acronym)
    ensures k < |rows| ==> SameAcronym(rows[k], acronym)
  {
    if |rows| == 0 || SameAcronym(rows[0], acronym) then 0 else 1 + FirstMatch(rows[1..], acronym)
  }

  /** `rows.find(u => u.acronym.toLowerCase() === acronym.toLowerCase())`. */
  function Find(rows: seq<University>, acronym: string): (r: Option<University>)
    ensures r.Some? <==> exists i :: 0 <= i < |rows| && SameAcronym(rows[i], acronym)
    ensures r.Some? ==> r.value in rows && SameAcronym(r.value, acronym)
  {
    var k := FirstMatch(rows, acronym);
    if k < |rows| then Some(rows[k]) else None
  }

  /** `Find` returns the first match: every earlier row has another acronym. */
  lemma FindIsFirst(rows: seq<University>, acronym: string)
    requires Find(rows, acronym).Some?
    ensures exists i :: 0 <= i < |rows| && rows[i] == Find(rows, acronym).value
                        && forall j :: 0 <= j < i ==> !SameAcronym(rows[j], acronym)
  {
    var k := FirstMatch(rows, acronym);
    assert rows[k] == Find(rows, acronym).value;
  }

  /** Two queries that agree up to letter case find the same record. */
  lemma {:induction false} FindIgnoresCase(rows: seq<University>, a: string, b: string)
    requires Ascii.ToLower(a) == Ascii.ToLower(b)
    ensures Find(rows, a) == Find(rows, b)
  {
    FirstMatchIgnoresCase(rows, a, b);
  }

  lemma {:induction false} FirstMatchIgnoresCase(rows: seq<University>, a: string, b: string)
    requires Ascii.ToLower(a) == Ascii.ToLower(b)
    ensures FirstMatch(rows, a) == FirstMatch(rows, b)
  {
    if |rows| > 0 && !SameAcronym(rows[0], a) {
      FirstMatchIgnoresCase(rows[1..], a, b);
    }
  }

  /** A query in upper case finds the same record as the query as typed. */
  lemma FindUpperCaseQuery(rows: seq<University>, acronym: string)
    ensures Find(rows, Ascii.ToUpper(acronym)) == Find(rows, acronym)
  {
    Ascii.LowerOfUpper(acronym);
    FindIgnoresCase(rows, Ascii.ToUpper(acronym), acronym);
  }

  /** Acronyms identify universities, up to letter case. */
  predicate UniqueAcronyms(rows: seq<University>)
  {
    forall i, j :: 0 <= i < j < |rows| ==> !SameAcronym(rows[i], rows[j].acronym)
  }

  /** With unique acronyms, the lookup returns THE record with that acronym. */
  lemma FindUnique(rows: seq<University>, acronym: string, i: nat)
    requires UniqueAcronyms(rows)
    requires i < |rows| && SameAcronym(rows[i], acronym)
    ensures Find(rows, acronym) == Some(rows[i])
  {
    var k := FirstMatch(rows, acronym);
    assert k <= i;
  }

  /** The lookup `fetchUniversity` makes in the local store: the snapshot's first match, whatever its age. */
  function CachedMatch(store: map<string, Stored>, acronym: string): (r: Option<University>)
    ensures r.Some? ==> Snapshot(store).Some? && r.value in Snapshot(store).value && SameAcronym(r.value, acronym)
    ensures r.None? ==> Snapshot(store).None?
                        || forall i :: 0 <= i < |Snapshot(store).value| ==> !SameAcronym(Snapshot(store).value[i], acronym)
  {
    match Snapshot(store)
    case None => None
    case Some(rows) => Find(rows, acronym)
  }

  /**
   * `fetchUniversity` does not depend on the case the acronym is typed in:
   * two casings of one acronym find the same cached record, and on a miss
   * send the same point query. So, given the same remote answer, the fetch
   * returns the same result for either.
   */
  lemma LookupIgnoresCase(store: map<string, Stored>, a: string, b: string)
    requires Ascii.ToLower(a) == Ascii.ToLower(b)
    ensures CachedMatch(store, a) == CachedMatch(store, b)
    ensures ByAcronym(Ascii.ToUpper(a)) == ByAcronym(Ascii.ToUpper(b))
  {
    if Snapshot(store).Some? {
      FindIgnoresCase(Snapshot(store).value, a, b);
    }
    Ascii.UpperOfLowerEqual(a, b);
  }

  /** The cached lookup never looks at the timestamp. */
  lemma CachedMatchIgnoresTimestamp(store: map<string, Stored>, acronym: string, stamp: Stored)
    ensures CachedMatch(store[TimestampKey := stamp], acronym) == CachedMatch(store, acronym)
  {
    assert Snapshot(store[TimestampKey := stamp]) == Snapshot(store);
  }

  /**
   * A snapshot written at `at` is served again by a call at `now` exactly
   * when `now` comes less than five minutes after `at`.
   */
  lemma RefreshedFreshUntil(store: map<string, Stored>, rows: seq<University>, at: int, now: int)
    ensures IsFresh(Refreshed(store, rows, at), now) <==> now < at + FreshnessMs
  {
  }

  /** Freshness is strict: a snapshot exactly five minutes old is stale. */
  lemma StaleAtThreshold(store: map<string, Stored>, now: int)
    requires Timestamp(store) == Some(now - FreshnessMs)
    ensures !IsFresh(store, now)
  {
  }

  /**
   * The `initialData` lookup of `useUniversities`: nothing when no acronym is
   * given (`undefined` or the empty string), otherwise the first record of the
   * "universities" query cache whose acronym matches, if that cache holds data.
   */
  function InitialData(acronym: Option<string>, queryCache: Option<seq<University>>): (r: Option<University>)
    ensures (acronym.None? || acronym == Some("") || queryCache.None?) ==> r.None?
    ensures r.Some? ==> r.value in queryCache.value && SameAcronym(r.value, acronym.value)
    ensures acronym.Some? && acronym.value != "" && queryCache.Some?
            && (exists i :: 0 <= i < |queryCache.value| && SameAcronym(queryCache.value[i], acronym.value))
            ==> r.Some?
  {
    if acronym.None? || acronym.value == "" then None
    else if queryCache.None? then None
    else Find(queryCache.value, acronym.value)
  }

  /** The directory client's state: the local key-value store. */
  class DirectoryCache {
    var store: map<string, Stored>

    ghost predicate Valid()
      reads this
    {
      WellTyped(store)
    }

    constructor (initial: map<string, Stored>)
      requires WellTyped(initial)
      ensures Valid() && store == initial
    {
      store := initial;
    }

    /**
     * `fetchAllUniversities`. `now` is the clock read for the age check,
     * `later` the clock read when the refreshed snapshot is stamped, and
     * `response` what the remote store answers to the full-collection query.
     */
    method FetchAllUniversities(now: int, later: int, response: Result<seq<University>, FetchError>)
      returns (result: Result<seq<University>, FetchError>, sent: Option<Query>)
      requires Valid()
      modifies this
      ensures Valid()
      // hit: the cached snapshot, no remote call, no write
      ensures IsFresh(old(store), now) ==>
                sent == None && result == Ok(Snapshot(old(store)).value) && store == old(store)
      // miss: one full-collection query, whose answer is returned
      ensures !IsFresh(old(store), now) ==> sent == Some(AllOrderedByName) && result == response
      // failed refresh: the store, stale entry included, is left as it was
      ensures !IsFresh(old(store), now) && response.Err? ==> store == old(store)
      // successful refresh: both keys replaced wholesale
      ensures !IsFresh(old(store), now) && response.Ok? ==> store == Refreshed(old(store), response.value, later)
    {
      var cachedData := Snapshot(store);
      var cachedTimestamp := Timestamp(store);
      if cachedData.Some? && cachedTimestamp.Some? {
        var age := now - cachedTimestamp.value;
        if age < FreshnessMs {
          return Ok(cachedData.value), None;
        }
      }
      sent := Some(AllOrderedByName);
      if response.Err? {
        return response, sent;
      }
      store := store[UniversitiesKey := Rows(response.value)];
      store := store[TimestampKey := Millis(later)];
      result := response;
    }

    /**
     * `fetchUniversity`: the first cached record whose acronym matches up to
     * case, and otherwise the answer `response` of the remote store to a point
     * query by the upper-cased acronym. It never writes the store.
     */
    method FetchUniversity(acronym: string, response: Result<Option<University>, FetchError>)
      returns (result: Result<Option<University>, FetchError>, sent: Option<Query>)
      requires Valid()
      ensures CachedMatch(store, acronym).Some? ==> sent == None && result == Ok(CachedMatch(store, acronym))
      ensures CachedMatch(store, acronym).None? ==>
                sent == Some(ByAcronym(Ascii.ToUpper(acronym))) && result == response
    {
      var cachedData := Snapshot(store);
      if cachedData.Some? {
        var university := Find(cachedData.value, acronym);
        if university.Some? {
          return Ok(university), None;
        }
      }
      sent := Some(ByAcronym(Ascii.ToUpper(acronym)));
      result := response;
    }
  }
}
