/**
 * src/pages/Home.jsx: the page's filter record and the two handlers that
 * update it. The record is handed unchanged to the book list.
 */
module Home {
  import opened Wrappers
  import opened BookList

  /** handleFilterChange's new record: "clear" empties it, "all" unsets the key, anything else is stored. */
  function FilterChanged(f: Filters, kind: string, value: string): (r: Filters)
    ensures kind == "clear" ==> r == map[]
    ensures kind != "clear" && value == "all" ==> kind !in r && forall k :: k != kind ==> Get(r, k) == Get(f, k)
    ensures kind != "clear" && value != "all" ==> Get(r, kind) == Some(value) && forall k :: k != kind ==> Get(r, k) == Get(f, k)
  {
    if kind == "clear" then map[]
    else if value == "all" then f - {kind}
    else f[kind := value]
  }

  /** handleSearch's new record: only the search changes. */
  function Searched(f: Filters, query: string): (r: Filters)
    ensures Get(r, SEARCH_QUERY) == Some(query)
    ensures forall k :: k != SEARCH_QUERY ==> Get(r, k) == Get(f, k)
  {
    f[SEARCH_QUERY := query]
  }

  /** After "clear" every loaded book is listed again. */
  lemma ClearShowsAll(books: seq<Book>, f: Filters, value: string)
    ensures FilteredBooks(books, FilterChanged(f, "clear", value)) == books
  {
    EmptyFiltersKeepAll(books);
  }

  /**
   * Unsetting a key with "all" and storing "all" under it keep the same books,
   * so the page and the list agree on what "all" means.
   */
  lemma AllAgreesWithList(b: Book, f: Filters, kind: string)
    requires kind in {GENRE, PRICE_RANGE, YEAR}
    ensures Keep(b, FilterChanged(f, kind, "all")) == Keep(b, f[kind := "all"])
  {
    AllImposesNothing(b, f, kind);
  }

  /** Choosing a value for a criterion that was not in force never enlarges the list. */
  lemma FilterChangedNarrows(books: seq<Book>, f: Filters, kind: string, value: string)
    requires kind != "clear" && value != "all" && !Active(f, kind)
    ensures IsSubsequence(FilteredBooks(books, FilterChanged(f, kind, value)), FilteredBooks(books, f))
  {
    AddCriterionNarrows(books, f, kind, value);
  }

  /** A repeated search replaces the earlier one. */
  lemma SearchReplaces(f: Filters, q1: string, q2: string)
    ensures Searched(Searched(f, q1), q2) == Searched(f, q2)
  {
  }

  /** The page's state: the filter record it passes to the list. */
  class HomePage {
    var filters: Filters

    /** useState({}). */
    constructor ()
      ensures filters == map[]
    {
      filters := map[];
    }

    method HandleFilterChange(kind: string, value: string)
      modifies this
      ensures filters == FilterChanged(old(filters), kind, value)
    {
      if kind == "clear" {
        filters := map[];
      } else if value == "all" {
        filters := filters - {kind};
      } else {
        filters := filters[kind := value];
      }
    }

    method HandleSearch(query: string)
      modifies this
      ensures filters == Searched(old(filters), query)
    {
      filters := filters[SEARCH_QUERY := query];
    }
  }
}
