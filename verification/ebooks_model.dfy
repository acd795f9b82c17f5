/** The two read queries of the ebooks model: the published catalogue, newest first, and
    the upcoming titles, soonest release first. */
module EbooksModel {
  import opened Wrappers
  import opened JsValue
  import opened Query

  /** A row of the `ebooks` table, as far as the queries look at it. */
  datatype EbookRow = EbookRow(id: nat, title: Value, status: Value, createdAt: int, releaseDate: int)

  function EbookCreatedAt(e: EbookRow): int { e.createdAt }
  function EbookReleaseDate(e: EbookRow): int { e.releaseDate }

  /** `.eq("status", status)`. */
  predicate HasStatus(e: EbookRow, status: string) {
    Matches(e.status, Str(status))
  }

  /** `getPublishedEbooks()`: the published rows, newest first, or the datastore's error. */
  function PublishedEbooks(rows: seq<EbookRow>, failure: Option<string>): (r: Result<seq<EbookRow>, string>)
    ensures failure.Some? ==> r == Failure(failure.value)
    ensures failure.None? ==> r.Success? && SortedBy(r.value, EbookCreatedAt, true)
    ensures failure.None? ==>
      forall x :: multiset(r.value)[x] == if HasStatus(x, "published") then multiset(rows)[x] else 0
  {
    if failure.Some? then Failure(failure.value)
    else Success(Select(rows, (e: EbookRow) => HasStatus(e, "published"), EbookCreatedAt, true))
  }

  /** `getUpcomingEbooks()`: the upcoming rows, earliest release first, or the datastore's
      error. */
  function UpcomingEbooks(rows: seq<EbookRow>, failure: Option<string>): (r: Result<seq<EbookRow>, string>)
    ensures failure.Some? ==> r == Failure(failure.value)
    ensures failure.None? ==> r.Success? && SortedBy(r.value, EbookReleaseDate, false)
    ensures failure.None? ==>
      forall x :: multiset(r.value)[x] == if HasStatus(x, "upcoming") then multiset(rows)[x] else 0
  {
    if failure.Some? then Failure(failure.value)
    else Success(Select(rows, (e: EbookRow) => HasStatus(e, "upcoming"), EbookReleaseDate, false))
  }

  /** The two lists never share a row: no row is both published and upcoming. */
  lemma CataloguesDisjoint(rows: seq<EbookRow>, x: EbookRow)
    ensures !(x in PublishedEbooks(rows, None).value && x in UpcomingEbooks(rows, None).value)
  {
    SelectMembers(rows, (e: EbookRow) => HasStatus(e, "published"), EbookCreatedAt, true, x);
    SelectMembers(rows, (e: EbookRow) => HasStatus(e, "upcoming"), EbookReleaseDate, false, x);
  }
}
