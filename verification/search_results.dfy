/**
 The SearchResult entity (one hit returned by a search engine) and the
 persistence service that registers results by their deduplication key and
 flips their flags and links. The table of stored results is a map from
 ids to records.
 */
module SearchResults {
  import opened Wrappers
  import opened Time
  import opened Store

  datatype SearchResult = SearchResult(
    searchResultId: Option<Uuid>,
    discoverySessionId: Option<Uuid>,
    searchEngine: Option<string>,
    searchQuery: Option<string>,
    discoveredAt: Option<Instant>,
    searchDate: Option<LocalDate>,
    url: Option<string>,
    domain: Option<string>,
    urlPath: Option<string>,
    title: Option<string>,
    description: Option<string>,
    rankPosition: Option<int>,
    isDuplicate: Option<bool>,
    duplicateOfResultId: Option<Uuid>,
    deduplicationKey: Option<string>,
    isProcessed: Option<bool>,
    processedAt: Option<Instant>,
    organizationId: Option<Uuid>,
    programId: Option<Uuid>,
    candidateId: Option<Uuid>,
    isBlacklisted: Option<bool>,
    blacklistReason: Option<string>,
    notes: Option<string>)

  /* The text every key starts with: "domain:url:". */
  function KeyPrefix(domain: string, url: string): string {
    domain + ":" + url + ":"
  }

  /* generateDeduplicationKey: "domain:url:date", or null when a part is missing. */
  function GenerateDeduplicationKey(r: SearchResult): (key: Option<string>)
    ensures key.None? <==> r.domain.None? || r.url.None? || r.searchDate.None?
    ensures key.Some? ==>
      var p := KeyPrefix(r.domain.value, r.url.value);
      && |p| <= |key.value|
      && key.value[..|p|] == p
      && key.value[|p|..] == DateText(r.searchDate.value)
  {
    if r.domain.None? || r.url.None? || r.searchDate.None? then None
    else Some(KeyPrefix(r.domain.value, r.url.value) + DateText(r.searchDate.value))
  }

  /* Two results for the same domain and URL share a key exactly when they share a date. */
  lemma KeySeparatesDates(a: SearchResult, b: SearchResult)
    requires a.domain.Some? && a.url.Some? && a.searchDate.Some? && b.searchDate.Some?
    requires a.domain == b.domain && a.url == b.url
    ensures GenerateDeduplicationKey(a) == GenerateDeduplicationKey(b) <==> a.searchDate == b.searchDate
  {
    if GenerateDeduplicationKey(a) == GenerateDeduplicationKey(b) {
      var p := KeyPrefix(a.domain.value, a.url.value);
      assert DateText(a.searchDate.value) == GenerateDeduplicationKey(a).value[|p|..];
      DateTextInjective(a.searchDate.value, b.searchDate.value);
    }
  }

  /* shouldSkipAsDuplicate: Boolean.TRUE.equals, so only a set flag counts and null reads as false. */
  function ShouldSkipAsDuplicate(r: SearchResult): (b: bool)
    ensures b <==> r.isDuplicate.Some? && r.isDuplicate.value
    ensures r.isDuplicate.None? ==> !b
  {
    r.isDuplicate == Some(true)
  }

  /* hasBeenProcessed: only a set flag counts; null reads as false. */
  function HasBeenProcessed(r: SearchResult): (b: bool)
    ensures b <==> r.isProcessed.Some? && r.isProcessed.value
    ensures r.isProcessed.None? ==> !b
  {
    r.isProcessed == Some(true)
  }

  /* isBlacklistedDomain: only a set flag counts; null reads as false. */
  function IsBlacklistedDomain(r: SearchResult): (b: bool)
    ensures b <==> r.isBlacklisted.Some? && r.isBlacklisted.value
    ensures r.isBlacklisted.None? ==> !b
  {
    r.isBlacklisted == Some(true)
  }

  type SearchResultTable = map<Uuid, SearchResult>

  /* No two stored results carry the same (non-null) deduplication key. */
  predicate UniqueKeys(t: SearchResultTable) {
    forall a, b :: a in t && b in t && t[a].deduplicationKey.Some? && t[a].deduplicationKey == t[b].deduplicationKey ==> a == b
  }

  /* The ids of the stored results whose key equals `key`; a null key matches the rows without one. */
  function Holders(t: SearchResultTable, key: Option<string>): set<Uuid> {
    set id | id in t && t[id].deduplicationKey == key
  }

  /* The exception a single-result query raises when it finds several rows. */
  function TooManyRows(actual: nat): Exception {
    IncorrectResultSize("Incorrect result size: expected 1, actual " + Digits(actual))
  }

  /* A set of size one is the singleton of any of its members. */
  lemma SingletonOf(s: set<Uuid>, x: Uuid)
    requires x in s && |s| == 1
    ensures s == {x}
  {
    assert |s - {x}| == 0;
  }

  /*
   findByDeduplicationKey: a derived query on the key column. A null key
   becomes `IS NULL` and finds the rows without a key. The query returns
   at most one row, so finding several throws.
   */
  function FindByDeduplicationKey(t: SearchResultTable, key: Option<string>): (r: Result<Option<Uuid>>)
    ensures r.Fail? <==> |Holders(t, key)| > 1
    ensures r.Fail? ==> r.error == TooManyRows(|Holders(t, key)|)
    ensures r == Ok(None) <==> Holders(t, key) == {}
    ensures r.Ok? && r.value.Some? ==> Holders(t, key) == {r.value.value}
  {
    var ids := Holders(t, key);
    if |ids| > 1 then Fail(TooManyRows(|ids|))
    else
      var found := FindWhere(t, (x: SearchResult) => x.deduplicationKey == key);
      if found.Some? then
        assert found.value in ids;
        SingletonOf(ids, found.value);
        Ok(found)
      else
        Ok(found)
  }

  /* With unique keys a non-null key never finds several rows. */
  lemma KeyedLookupSucceeds(t: SearchResultTable, key: string)
    requires UniqueKeys(t)
    ensures FindByDeduplicationKey(t, Some(key)).Ok?
  {
    var ids := Holders(t, Some(key));
    if ids != {} {
      var a :| a in ids;
      assert ids <= {a};
      SubsetCardinality(ids, {a});
    }
  }

  /* save: a record without an id receives `freshId` from the database. */
  function Save(t: SearchResultTable, r: SearchResult, freshId: Uuid): (SearchResultTable, SearchResult) {
    var id := r.searchResultId.GetOr(freshId);
    var saved := r.(searchResultId := Some(id));
    (t[id := saved], saved)
  }

  /*
   registerSearchResult: a stored record with the input's key (a null key
   finding a stored keyless record) is marked as a duplicate and returned;
   when none has it the input is saved; several throw from the lookup.
   */
  function RegisterSearchResult(t: SearchResultTable, input: SearchResult, freshId: Uuid): (r: Result<(SearchResultTable, SearchResult)>)
    ensures r.Fail? <==> |Holders(t, input.deduplicationKey)| > 1
    ensures r.Fail? ==> r.error == TooManyRows(|Holders(t, input.deduplicationKey)|)
    ensures r.Ok? && Holders(t, input.deduplicationKey) != {} ==>
      var id := FindByDeduplicationKey(t, input.deduplicationKey).value.value;
      && Holders(t, input.deduplicationKey) == {id}
      && OnlyRecordChanged(t, r.value.0, id)
      && r.value.1 == r.value.0[id]
      && r.value.1.isDuplicate == Some(true)
      && r.value.1.(isDuplicate := t[id].isDuplicate) == t[id]
    ensures Holders(t, input.deduplicationKey) == {} ==>
      && r.Ok?
      && r.value.1.searchResultId.Some?
      && r.value.1 == input.(searchResultId := r.value.1.searchResultId)
      && r.value.0 == t[r.value.1.searchResultId.value := r.value.1]
  {
    var found :- FindByDeduplicationKey(t, input.deduplicationKey);
    match found
    case Some(id) =>
      var existing := t[id].(isDuplicate := Some(true));
      Ok((t[id := existing], existing))
    case None =>
      Ok(Save(t, input, freshId))
  }

  /* A new record takes a fresh id, as the database assigns it. */
  predicate FreshInsert(t: SearchResultTable, input: SearchResult, freshId: Uuid) {
    input.searchResultId.None? && freshId !in t
  }

  lemma RegisterKeepsKeysUnique(t: SearchResultTable, input: SearchResult, freshId: Uuid)
    requires UniqueKeys(t) && FreshInsert(t, input, freshId)
    ensures RegisterSearchResult(t, input, freshId).Ok? ==> UniqueKeys(RegisterSearchResult(t, input, freshId).value.0)
  {
    var r := RegisterSearchResult(t, input, freshId);
    if r.Ok? && Holders(t, input.deduplicationKey) == {} {
      var t' := r.value.0;
      assert t' == t[freshId := input.(searchResultId := Some(freshId))];
      forall a, b | a in t' && b in t' && t'[a].deduplicationKey.Some? && t'[a].deduplicationKey == t'[b].deduplicationKey
        ensures a == b
      {
      }
    }
  }

  /*
   Registering the same keyed result twice stores it once: both calls
   succeed, the second adds no record, and exactly one stored record has
   the key.
   */
  lemma RegisterTwiceStoresOnce(t: SearchResultTable, input: SearchResult, id1: Uuid, id2: Uuid)
    requires UniqueKeys(t) && FreshInsert(t, input, id1)
    requires input.deduplicationKey.Some?
    requires RegisterSearchResult(t, input, id1).Ok? ==> FreshInsert(RegisterSearchResult(t, input, id1).value.0, input, id2)
    ensures RegisterSearchResult(t, input, id1).Ok?
    ensures
      var once := RegisterSearchResult(t, input, id1).value.0;
      var twice := RegisterSearchResult(once, input, id2);
      && twice.Ok?
      && twice.value.0.Keys == once.Keys
      && Holders(twice.value.0, input.deduplicationKey) == Holders(once, input.deduplicationKey)
      && |Holders(twice.value.0, input.deduplicationKey)| == 1
      && twice.value.1.isDuplicate == Some(true)
  {
    var key := input.deduplicationKey;
    KeyedLookupSucceeds(t, key.value);
    var once := RegisterSearchResult(t, input, id1).value;
    RegisterKeepsKeysUnique(t, input, id1);
    KeyedLookupSucceeds(once.0, key.value);
    if Holders(t, key) == {} {
      assert id1 in Holders(once.0, key);
    } else {
      var id := FindByDeduplicationKey(t, key).value.value;
      assert id in Holders(once.0, key);
    }
    var found := FindByDeduplicationKey(once.0, key).value.value;
    var twice := RegisterSearchResult(once.0, input, id2).value;
    assert forall k :: k in twice.0 ==> twice.0[k].deduplicationKey == once.0[k].deduplicationKey;
    assert Holders(twice.0, key) == Holders(once.0, key) == {found};
  }

  /*
   A result without a key finds a stored keyless result, as the query's
   `IS NULL` does: with one such row it is marked a duplicate and nothing
   is inserted; with two the lookup throws.
   */
  lemma KeylessInputMatchesKeylessRow(t: SearchResultTable, input: SearchResult, freshId: Uuid, a: Uuid, b: Uuid)
    requires input.deduplicationKey.None?
    requires a in t && t[a].deduplicationKey.None?
    ensures Holders(t, None) == {a} ==>
      var r := RegisterSearchResult(t, input, freshId);
      r.Ok? && r.value.0.Keys == t.Keys && r.value.1 == t[a].(isDuplicate := Some(true))
    ensures b in t && b != a && t[b].deduplicationKey.None? ==>
      RegisterSearchResult(t, input, freshId).Fail?
  {
    if b in t && b != a && t[b].deduplicationKey.None? {
      assert {a, b} <= Holders(t, None);
      assert |{a, b}| == 2;
      SubsetCardinality({a, b}, Holders(t, None));
    }
  }


  function NotFound(id: Uuid): Exception {
    IllegalArgument("SearchResult not found: " + Digits(id))
  }

  /* markAsProcessed: sets only isProcessed; an unknown id throws. */
  function MarkAsProcessed(t: SearchResultTable, id: Uuid): (r: Result<(SearchResultTable, SearchResult)>)
    ensures r.Fail? <==> id !in t
    ensures r.Fail? ==> r.error == NotFound(id)
    ensures r.Ok? ==>
      && OnlyRecordChanged(t, r.value.0, id)
      && r.value.1 == r.value.0[id]
      && HasBeenProcessed(r.value.1)
      && r.value.1.(isProcessed := t[id].isProcessed) == t[id]
  {
    if id !in t then Fail(NotFound(id))
    else
      var updated := t[id].(isProcessed := Some(true));
      Ok((t[id := updated], updated))
  }

  /* markAsBlacklisted: sets only isBlacklisted; an unknown id throws. */
  function MarkAsBlacklisted(t: SearchResultTable, id: Uuid): (r: Result<(SearchResultTable, SearchResult)>)
    ensures r.Fail? <==> id !in t
    ensures r.Fail? ==> r.error == NotFound(id)
    ensures r.Ok? ==>
      && OnlyRecordChanged(t, r.value.0, id)
      && r.value.1 == r.value.0[id]
      && IsBlacklistedDomain(r.value.1)
      && r.value.1.(isBlacklisted := t[id].isBlacklisted) == t[id]
  {
    if id !in t then Fail(NotFound(id))
    else
      var updated := t[id].(isBlacklisted := Some(true));
      Ok((t[id := updated], updated))
  }

  /* linkToOrganization: sets only organizationId; an unknown id throws. */
  function LinkToOrganization(t: SearchResultTable, id: Uuid, organizationId: Option<Uuid>): (r: Result<(SearchResultTable, SearchResult)>)
    ensures r.Fail? <==> id !in t
    ensures r.Fail? ==> r.error == NotFound(id)
    ensures r.Ok? ==>
      && OnlyRecordChanged(t, r.value.0, id)
      && r.value.1 == r.value.0[id]
      && r.value.1.organizationId == organizationId
      && r.value.1.(organizationId := t[id].organizationId) == t[id]
  {
    if id !in t then Fail(NotFound(id))
    else
      var updated := t[id].(organizationId := organizationId);
      Ok((t[id := updated], updated))
  }

  /* linkToProgram: sets only programId; an unknown id throws. */
  function LinkToProgram(t: SearchResultTable, id: Uuid, programId: Option<Uuid>): (r: Result<(SearchResultTable, SearchResult)>)
    ensures r.Fail? <==> id !in t
    ensures r.Fail? ==> r.error == NotFound(id)
    ensures r.Ok? ==>
      && OnlyRecordChanged(t, r.value.0, id)
      && r.value.1 == r.value.0[id]
      && r.value.1.programId == programId
      && r.value.1.(programId := t[id].programId) == t[id]
  {
    if id !in t then Fail(NotFound(id))
    else
      var updated := t[id].(programId := programId);
      Ok((t[id := updated], updated))
  }

  /* linkToCandidate: sets only candidateId; an unknown id throws. */
  function LinkToCandidate(t: SearchResultTable, id: Uuid, candidateId: Option<Uuid>): (r: Result<(SearchResultTable, SearchResult)>)
    ensures r.Fail? <==> id !in t
    ensures r.Fail? ==> r.error == NotFound(id)
    ensures r.Ok? ==>
      && OnlyRecordChanged(t, r.value.0, id)
      && r.value.1 == r.value.0[id]
      && r.value.1.candidateId == candidateId
      && r.value.1.(candidateId := t[id].candidateId) == t[id]
  {
    if id !in t then Fail(NotFound(id))
    else
      var updated := t[id].(candidateId := candidateId);
      Ok((t[id := updated], updated))
  }

  /* The mutators never touch the deduplication keys, so key uniqueness survives them. */
  lemma MarkAsProcessedKeepsKeysUnique(t: SearchResultTable, id: Uuid)
    requires UniqueKeys(t)
    ensures MarkAsProcessed(t, id).Ok? ==> UniqueKeys(MarkAsProcessed(t, id).value.0)
  {
    if id in t {
      var t' := MarkAsProcessed(t, id).value.0;
      assert forall k :: k in t' ==> t'[k].deduplicationKey == t[k].deduplicationKey;
    }
  }
}
