/**
 * src/components/BookFilter.jsx: the record each control change hands to the
 * `setFilters` prop, the record the Clear Filters button hands to it, and the
 * option values of the three drop-down lists.
 */
module BookFilter {
  import opened Wrappers
  import opened Strings
  import opened Js
  import opened BookList

  /** The option values of the genre list; "all" comes first. */
  const GENRE_OPTIONS: seq<string> := ["all", "fantasy", "magical realism", "scifi", "romance", "dystopian"]

  /** The option values of the price list. */
  const PRICE_OPTIONS: seq<string> := ["all", "30000-40000", "40000-50000", "50000-60000"]

  /** The option values of the year list. */
  const YEAR_OPTIONS: seq<string> :=
    ["all", "1950-1959", "1960-1969", "1990-1999", "2000-2010", "2010-2020", "2020-2030"]

  /** The bounds each price option after "all" is written from. */
  const PRICE_BOUNDS: seq<(nat, nat)> := [(30000, 40000), (40000, 50000), (50000, 60000)]

  /** The bounds each year option after "all" is written from. */
  const YEAR_BOUNDS: seq<(nat, nat)> :=
    [(1950, 1959), (1960, 1969), (1990, 1999), (2000, 2010), (2010, 2020), (2020, 2030)]

  /** handleChange: `{...prev, [name]: value}`, the record passed to setFilters. */
  function Changed(f: Filters, name: string, value: string): (r: Filters)
    ensures Get(r, name) == Some(value)
    ensures forall k :: k != name ==> Get(r, k) == Get(f, k)
    ensures r.Keys == f.Keys + {name}
  {
    f[name := value]
  }

  /** A later change of the same control overrides an earlier one. */
  lemma ChangedOverrides(f: Filters, name: string, a: string, b: string)
    ensures Changed(Changed(f, name, a), name, b) == Changed(f, name, b)
  {
  }

  /** Changes to two different controls commute. */
  lemma ChangedCommutes(f: Filters, n1: string, v1: string, n2: string, v2: string)
    requires n1 != n2
    ensures Changed(Changed(f, n1, v1), n2, v2) == Changed(Changed(f, n2, v2), n1, v1)
  {
  }

  /**
   * The record of the Clear Filters button: every drop-down back at "all", the
   * author text empty, and the search kept (an undefined search is no key).
   */
  function Cleared(f: Filters): (r: Filters)
    ensures Get(r, GENRE) == Some("all") && Get(r, PRICE_RANGE) == Some("all")
    ensures Get(r, AUTHOR) == Some("") && Get(r, YEAR) == Some("all")
    ensures Get(r, SEARCH_QUERY) == Get(f, SEARCH_QUERY)
    ensures r.Keys <= {GENRE, PRICE_RANGE, AUTHOR, YEAR, SEARCH_QUERY}
  {
    var base := map[GENRE := "all", PRICE_RANGE := "all", AUTHOR := "", YEAR := "all"];
    if SEARCH_QUERY in f then base[SEARCH_QUERY := f[SEARCH_QUERY]] else base
  }

  /** Clearing twice gives the same record as clearing once. */
  lemma ClearedIdempotent(f: Filters)
    ensures Cleared(Cleared(f)) == Cleared(f)
  {
    var r := Cleared(f);
    var rr := Cleared(r);
    assert forall k :: k in rr <==> k in r;
    assert forall k :: k in rr ==> rr[k] == r[k] by {
      forall k | k in rr
        ensures rr[k] == r[k]
      {
        assert Get(rr, k) == Get(r, k);
      }
    }
  }

  /** What was changed before clearing does not matter, unless it was the search. */
  lemma ClearedForgetsChanges(f: Filters, name: string, value: string)
    requires name != SEARCH_QUERY
    ensures Cleared(Changed(f, name, value)) == Cleared(f)
  {
  }

  /** After clearing, only the search restricts the list. */
  lemma ClearedImposesOnlySearch(b: Book, f: Filters)
    ensures Keep(b, Cleared(f)) <==> SearchOk(b, f)
  {
  }

  /** The list after clearing is what the search alone selects. */
  lemma ClearedListIsSearchOnly(books: seq<Book>, f: Filters)
    ensures FilteredBooks(books, Cleared(f)) == FilteredBooks(books, map k | k in f && k == SEARCH_QUERY :: f[k])
  {
    var s := map k | k in f && k == SEARCH_QUERY :: f[k];
    forall b: Book
      ensures Keep(b, Cleared(f)) == Keep(b, s)
    {
      assert Get(s, SEARCH_QUERY) == Get(f, SEARCH_QUERY);
    }
    SameKeepSameList(books, Cleared(f), s);
  }

  /** Two records that keep the same books filter every list alike. */
  lemma {:induction false} SameKeepSameList(books: seq<Book>, f1: Filters, f2: Filters)
    requires forall b: Book :: Keep(b, f1) == Keep(b, f2)
    ensures FilteredBooks(books, f1) == FilteredBooks(books, f2)
  {
    if books != [] {
      SameKeepSameList(books[1..], f1, f2);
    }
  }

  /** Every price option after "all" is the text "lo-hi" of its bounds, with lo <= hi. */
  lemma PriceOptionsAreRanges()
    ensures |PRICE_OPTIONS| == |PRICE_BOUNDS| + 1 && PRICE_OPTIONS[0] == "all"
    ensures forall i :: 0 <= i < |PRICE_BOUNDS| ==>
              PRICE_BOUNDS[i].0 <= PRICE_BOUNDS[i].1
              && PRICE_OPTIONS[i + 1] == RangeString(PRICE_BOUNDS[i].0, PRICE_BOUNDS[i].1)
  {
    assert NatToString(30000) == "30000";
    assert NatToString(40000) == "40000";
    assert NatToString(50000) == "50000";
    assert NatToString(60000) == "60000";
  }

  /** Every year option after "all" is the text "start-end" of its bounds, with start <= end. */
  lemma YearOptionsAreRanges()
    ensures |YEAR_OPTIONS| == |YEAR_BOUNDS| + 1 && YEAR_OPTIONS[0] == "all"
    ensures forall i :: 0 <= i < |YEAR_BOUNDS| ==>
              YEAR_BOUNDS[i].0 <= YEAR_BOUNDS[i].1
              && YEAR_OPTIONS[i + 1] == RangeString(YEAR_BOUNDS[i].0, YEAR_BOUNDS[i].1)
  {
    forall i | 0 <= i < |YEAR_BOUNDS|
      ensures YEAR_OPTIONS[i + 1] == RangeString(YEAR_BOUNDS[i].0, YEAR_BOUNDS[i].1)
    {
      var (start, end) := YEAR_BOUNDS[i];
      assert NatToString(start) == YEAR_OPTIONS[i + 1][..4];
      assert NatToString(end) == YEAR_OPTIONS[i + 1][5..];
      assert YEAR_OPTIONS[i + 1] == YEAR_OPTIONS[i + 1][..4] + "-" + YEAR_OPTIONS[i + 1][5..];
    }
  }

  /** Choosing the price option numbered i keeps exactly the books priced within its bounds. */
  lemma PriceOptionSelects(b: Book, f: Filters, i: nat, p: int)
    requires 0 <= i < |PRICE_BOUNDS| && ToNumber(b.price) == Num(p)
    ensures PriceOk(b, Changed(f, PRICE_RANGE, PRICE_OPTIONS[i + 1])) <==> PRICE_BOUNDS[i].0 <= p <= PRICE_BOUNDS[i].1
  {
    PriceOptionsAreRanges();
    PriceCriterion(b, Changed(f, PRICE_RANGE, PRICE_OPTIONS[i + 1]), p, PRICE_BOUNDS[i].0, PRICE_BOUNDS[i].1);
  }

  /** Choosing the year option numbered i keeps exactly the books from within its bounds. */
  lemma YearOptionSelects(b: Book, f: Filters, i: nat, y: int)
    requires 0 <= i < |YEAR_BOUNDS| && ToNumber(b.year) == Num(y)
    ensures YearOk(b, Changed(f, YEAR, YEAR_OPTIONS[i + 1])) <==> YEAR_BOUNDS[i].0 <= y <= YEAR_BOUNDS[i].1
  {
    YearOptionsAreRanges();
    YearCriterion(b, Changed(f, YEAR, YEAR_OPTIONS[i + 1]), y, YEAR_BOUNDS[i].0, YEAR_BOUNDS[i].1);
  }

  /** The year options "2000-2010" and "2010-2020" share their boundary: a book from 2010 passes both. */
  lemma BoundaryYearInTwoOptions(b: Book, f: Filters)
    requires b.year == Num(2010)
    ensures YearOk(b, Changed(f, YEAR, "2000-2010")) && YearOk(b, Changed(f, YEAR, "2010-2020"))
  {
    YearOptionSelects(b, f, 3, 2010);
    YearOptionSelects(b, f, 4, 2010);
  }

  /**
   * The genre options are all lower-case and the genre test is case-sensitive,
   * so a book whose genre starts with a capital letter matches none of them.
   */
  lemma CapitalisedGenreMatchesNoOption(b: Book, f: Filters, g: string, i: nat)
    requires b.genre == Str(g) && g != "" && 'A' <= g[0] <= 'Z'
    requires 0 < i < |GENRE_OPTIONS|
    ensures !GenreOk(b, Changed(f, GENRE, GENRE_OPTIONS[i]))
  {
    assert 'a' <= GENRE_OPTIONS[i][0] <= 'z';
  }
}
