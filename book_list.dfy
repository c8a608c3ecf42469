/**
 * src/components/BookList.jsx: the record fetchBooks builds for each loaded
 * book, and the `filteredBooks` predicate that the filter record applies to
 * the loaded list.
 */
module BookList {
  import opened Wrappers
  import opened Strings
  import opened Js
  import BookApi

  type Book = BookApi.Book

  /** A filter record: a key whose value is undefined is simply absent. */
  type Filters = map<string, string>

  const SEARCH_QUERY := "searchQuery"
  const GENRE := "genre"
  const PRICE_RANGE := "priceRange"
  const AUTHOR := "author"
  const YEAR := "year"

  const AZURE_STORAGE_URL := "https://imagesbooks.blob.core.windows.net"
  const CONTAINER_NAME := "bookimages"
  const BASE_IMAGE_URL := AZURE_STORAGE_URL + "/" + CONTAINER_NAME + "/"
  const DEFAULT_IMAGE := "/images/default-book.jpg"

  /** `filters[key]`. */
  function Get(f: Filters, key: string): Option<string>
  {
    if key in f then Some(f[key]) else None
  }

  /** The image fetchBooks shows: the container URL plus the cleaned name, or the placeholder. */
  function LoadedImage(url: Option<string>): (r: string)
    ensures url.Some? && url.value != "" ==> r == BASE_IMAGE_URL + Lower(Trim(url.value))
    ensures !(url.Some? && url.value != "") ==> r == DEFAULT_IMAGE
    ensures r != ""
  {
    match url
    case Some(u) => if u != "" then BASE_IMAGE_URL + Lower(Trim(u)) else DEFAULT_IMAGE
    case None => DEFAULT_IMAGE
  }

  /**
   * The record fetchBooks keeps for one book of the catalogue. `fullYear`
   * stands for `new Date(d).getFullYear()`, which is not modelled.
   */
  function Loaded(b: Book, fullYear: Value -> Value): (r: Book)
    ensures r.id == b.bookId
    ensures Truthy(r.genre) && (Truthy(b.category) ==> r.genre == b.category)
    ensures !Truthy(b.category) ==> r.genre == Str("Sin género")
    ensures Truthy(b.dateEntry) ==> r.year == fullYear(b.dateEntry)
    ensures !Truthy(b.dateEntry) ==> r.year == Str("N/A")
    ensures r.image == Str(LoadedImage(b.imageUrl)) && Truthy(r.image)
    ensures r.(id := b.id, genre := b.genre, year := b.year, image := b.image) == b
  {
    b.(id := b.bookId,
       genre := Or(b.category, Str("Sin género")),
       year := if Truthy(b.dateEntry) then fullYear(b.dateEntry) else Str("N/A"),
       image := Str(LoadedImage(b.imageUrl)))
  }

  /** Both files name the same storage container. */
  lemma SameContainer()
    ensures BookApi.AZURE_STORAGE_URL == BASE_IMAGE_URL
  {
  }

  /** The container URL has no upper-case letter and no white space at either end. */
  lemma BaseUrlIsClean()
    ensures Lower(BASE_IMAGE_URL) == BASE_IMAGE_URL
    ensures !IsSpace(BASE_IMAGE_URL[0]) && !IsSpace(BASE_IMAGE_URL[|BASE_IMAGE_URL| - 1])
  {
  }

  /** The container URL followed by a lower-cased name is lower-case. */
  lemma PrefixedNameIsLower(t: string)
    ensures var n := BASE_IMAGE_URL + Lower(t); Lower(n) == n
  {
    BaseUrlIsClean();
    LowerAppend(BASE_IMAGE_URL, Lower(t));
    LowerIdempotent(t);
  }

  /** The container URL followed by the lower-cased form of trimmed text has no white space at either end. */
  lemma PrefixedNameIsTrimmed(t: string)
    requires t == [] || (!IsSpace(t[0]) && !IsSpace(t[|t| - 1]))
    ensures var n := BASE_IMAGE_URL + Lower(t); Trim(n) == n
  {
    var x := Lower(t);
    var n := BASE_IMAGE_URL + x;
    BaseUrlIsClean();
    assert n[0] == BASE_IMAGE_URL[0];
    if x != "" {
      assert n[|n| - 1] == x[|x| - 1] == LowerChar(t[|t| - 1]);
    } else {
      assert n == BASE_IMAGE_URL;
    }
    TrimUnchanged(n);
  }

  /** An image URL that normalisation produced from a relative name is already trimmed and lower-case. */
  lemma NormalizedNameIsClean(s: string)
    ensures var n := BASE_IMAGE_URL + Lower(Trim(s)); Trim(n) == n && Lower(n) == n
  {
    PrefixedNameIsLower(Trim(s));
    PrefixedNameIsTrimmed(Trim(s));
  }

  /**
   * fetchBooks is handed records that getBooks has already normalised, so a
   * relative image name has already been made absolute; the container URL is
   * then put in front of it a second time.
   */
  lemma LoadedAfterNormalize(b: Book, fullYear: Value -> Value, s: string)
    requires b.imageUrl == Some(s) && s != "" && !StartsWith(s, "http")
    ensures Loaded(BookApi.Normalize(b), fullYear).image
              == Str(BASE_IMAGE_URL + (BASE_IMAGE_URL + Lower(Trim(s))))
  {
    var n := BASE_IMAGE_URL + Lower(Trim(s));
    var nb := BookApi.Normalize(b);
    assert nb.imageUrl == Some(n) by {
      SameContainer();
      assert BookApi.NormalizedImageUrl(Some(s)) == Some(n);
    }
    assert LoadedImage(Some(n)) == BASE_IMAGE_URL + n by {
      NormalizedNameIsClean(s);
    }
  }

  /** data.map(...) in fetchBooks. */
  function LoadAll(data: seq<Book>, fullYear: Value -> Value): (r: seq<Book>)
    ensures |r| == |data|
    ensures forall i :: 0 <= i < |data| ==> r[i] == Loaded(data[i], fullYear)
  {
    if data == [] then [] else [Loaded(data[0], fullYear)] + LoadAll(data[1..], fullYear)
  }

  /**
   * `const [min, max] = range.split('-').map(Number)`: the first two pieces as
   * numbers. Without a '-' there is no second piece, so the upper bound is
   * undefined, which compares like NaN.
   */
  function ParseRange(range: string): (bounds: (Value, Value))
    ensures IsNumber(bounds.0)
    ensures '-' in range ==> IsNumber(bounds.1)
    ensures '-' !in range ==> bounds == (ToNumber(Str(range)), Undefined)
  {
    var parts := Split(range, '-');
    assert '-' !in range ==> parts == [range] by {
      if '-' !in range {
        SplitNoSeparator(range, '-');
      }
    }
    (ToNumber(Str(parts[0])), if |parts| > 1 then ToNumber(Str(parts[1])) else Undefined)
  }

  /** The option text "lo-hi". */
  function RangeString(lo: nat, hi: nat): string
  {
    NatToString(lo) + "-" + NatToString(hi)
  }

  /** Parsing the option text "lo-hi" gives back both bounds. */
  lemma ParseRangeRoundTrip(lo: nat, hi: nat)
    ensures ParseRange(RangeString(lo, hi)) == (Num(lo), Num(hi))
  {
    var a, b := NatToString(lo), NatToString(hi);
    assert '-' !in a && '-' !in b by {
      assert forall i :: 0 <= i < |a| ==> IsDigit(a[i]);
      assert forall i :: 0 <= i < |b| ==> IsDigit(b[i]);
    }
    assert RangeString(lo, hi) == a + ['-'] + b;
    SplitAround(a, '-', b);
    SplitNoSeparator(b, '-');
    ParseNumberOfNat(lo);
    ParseNumberOfNat(hi);
  }

  /** A range string is never one of the "no restriction" values. */
  lemma RangeStringIsActive(lo: nat, hi: nat)
    ensures RangeString(lo, hi) != "" && RangeString(lo, hi) != "all"
  {
    var a := NatToString(lo);
    assert RangeString(lo, hi)[0] == a[0] && IsDigit(a[0]);
  }

  /** `!(v < min || v > max)`. */
  predicate WithinRange(v: Value, range: string)
  {
    var bounds := ParseRange(range);
    !(Less(v, bounds.0) || Less(bounds.1, v))
  }

  /** A number is within "lo-hi" exactly when lo <= it <= hi: both bounds are inclusive. */
  lemma WithinRangeInclusive(v: Value, p: int, lo: nat, hi: nat)
    requires ToNumber(v) == Num(p)
    ensures WithinRange(v, RangeString(lo, hi)) <==> lo <= p <= hi
  {
    ParseRangeRoundTrip(lo, hi);
  }

  predicate SearchOk(b: Book, f: Filters)
  {
    match Get(f, SEARCH_QUERY)
    case None => true
    case Some(q) =>
      var searchLower := Lower(q);
      searchLower == "" || Contains(Lower(b.title), searchLower) || Contains(Lower(b.isbn), searchLower)
  }

  predicate GenreOk(b: Book, f: Filters)
  {
    match Get(f, GENRE)
    case None => true
    case Some(g) => g == "" || g == "all" || StrictEquals(b.genre, Str(g))
  }

  predicate PriceOk(b: Book, f: Filters)
  {
    match Get(f, PRICE_RANGE)
    case None => true
    case Some(p) => p == "" || p == "all" || WithinRange(b.price, p)
  }

  predicate AuthorOk(b: Book, f: Filters)
  {
    match Get(f, AUTHOR)
    case None => true
    case Some(a) => a == "" || Contains(Lower(b.author), Lower(a))
  }

  predicate YearOk(b: Book, f: Filters)
  {
    match Get(f, YEAR)
    case None => true
    case Some(y) => y == "" || y == "all" || WithinRange(b.year, y)
  }

  /** The predicate of `allBooks.filter(...)`: the book meets every criterion. */
  predicate Keep(b: Book, f: Filters)
  {
    SearchOk(b, f) && GenreOk(b, f) && PriceOk(b, f) && AuthorOk(b, f) && YearOk(b, f)
  }

  /** filteredBooks: exactly the loaded books that meet the filter, in their order. */
  function FilteredBooks(books: seq<Book>, f: Filters): (r: seq<Book>)
    ensures |r| <= |books|
    ensures forall x :: x in r <==> x in books && Keep(x, f)
  {
    if books == [] then []
    else if Keep(books[0], f) then [books[0]] + FilteredBooks(books[1..], f)
    else FilteredBooks(books[1..], f)
  }

  /** Each record occurs in the result as often as in the loaded list when it is kept, and never otherwise. */
  lemma {:induction false} FilteredCounts(books: seq<Book>, f: Filters)
    ensures forall x :: multiset(FilteredBooks(books, f))[x] == if Keep(x, f) then multiset(books)[x] else 0
  {
    if books != [] {
      FilteredCounts(books[1..], f);
      assert books == [books[0]] + books[1..];
      assert multiset(books) == multiset([books[0]]) + multiset(books[1..]);
    }
  }

  /** a can be obtained from b by deleting elements. */
  predicate IsSubsequence<T(==)>(a: seq<T>, b: seq<T>)
    decreases |b|
  {
    a == [] || (b != [] && ((a[0] == b[0] && IsSubsequence(a[1..], b[1..])) || IsSubsequence(a, b[1..])))
  }

  lemma {:induction false} SubsequenceLength<T>(a: seq<T>, b: seq<T>)
    requires IsSubsequence(a, b)
    ensures |a| <= |b|
    decreases |b|
  {
    if a != [] {
      if a[0] == b[0] && IsSubsequence(a[1..], b[1..]) {
        SubsequenceLength(a[1..], b[1..]);
      } else {
        SubsequenceLength(a, b[1..]);
      }
    }
  }

  /** The filtered list keeps the books in the order they were loaded. */
  lemma {:induction false} FilteredIsSubsequence(books: seq<Book>, f: Filters)
    ensures IsSubsequence(FilteredBooks(books, f), books)
  {
    if books != [] {
      FilteredIsSubsequence(books[1..], f);
      var rest := FilteredBooks(books[1..], f);
      if Keep(books[0], f) {
        assert ([books[0]] + rest)[1..] == rest;
      }
    }
  }

  /** With an empty filter record, every loaded book is shown. */
  lemma {:induction false} EmptyFiltersKeepAll(books: seq<Book>)
    ensures FilteredBooks(books, map[]) == books
  {
    if books != [] {
      EmptyFiltersKeepAll(books[1..]);
      assert [books[0]] + books[1..] == books;
    }
  }

  /** The criterion under key k of f restricts the list. */
  predicate Active(f: Filters, k: string)
  {
    k in f && f[k] != "" && (k in {GENRE, PRICE_RANGE, YEAR} ==> f[k] != "all")
  }

  /** Every criterion that f1 imposes, f2 imposes too, with the same value. */
  predicate Narrows(f2: Filters, f1: Filters)
  {
    && (Active(f1, SEARCH_QUERY) ==> Get(f2, SEARCH_QUERY) == Get(f1, SEARCH_QUERY))
    && (Active(f1, GENRE) ==> Get(f2, GENRE) == Get(f1, GENRE))
    && (Active(f1, PRICE_RANGE) ==> Get(f2, PRICE_RANGE) == Get(f1, PRICE_RANGE))
    && (Active(f1, AUTHOR) ==> Get(f2, AUTHOR) == Get(f1, AUTHOR))
    && (Active(f1, YEAR) ==> Get(f2, YEAR) == Get(f1, YEAR))
  }

  /** A book that passes a narrower filter passes the wider one. */
  lemma KeepNarrows(b: Book, f2: Filters, f1: Filters)
    requires Narrows(f2, f1) && Keep(b, f2)
    ensures Keep(b, f1)
  {
    if Active(f1, SEARCH_QUERY) {
      assert SearchOk(b, f1);
    } else if SEARCH_QUERY in f1 {
      LowerEmpty(f1[SEARCH_QUERY]);
    }
  }

  /** Filtering by a narrower record gives a subsequence of filtering by the wider one. */
  lemma {:induction false} FilterNarrows(books: seq<Book>, f2: Filters, f1: Filters)
    requires Narrows(f2, f1)
    ensures IsSubsequence(FilteredBooks(books, f2), FilteredBooks(books, f1))
    ensures |FilteredBooks(books, f2)| <= |FilteredBooks(books, f1)|
  {
    if books != [] {
      FilterNarrows(books[1..], f2, f1);
      var r2, r1 := FilteredBooks(books[1..], f2), FilteredBooks(books[1..], f1);
      if Keep(books[0], f2) {
        KeepNarrows(books[0], f2, f1);
        assert ([books[0]] + r2)[1..] == r2 && ([books[0]] + r1)[1..] == r1;
      } else if Keep(books[0], f1) {
        assert ([books[0]] + r1)[1..] == r1;
      }
    }
    SubsequenceLength(FilteredBooks(books, f2), FilteredBooks(books, f1));
  }

  /** Setting a criterion that was not in force never enlarges the result. */
  lemma AddCriterionNarrows(books: seq<Book>, f: Filters, k: string, v: string)
    requires !Active(f, k)
    ensures IsSubsequence(FilteredBooks(books, f[k := v]), FilteredBooks(books, f))
  {
    assert Narrows(f[k := v], f);
    FilterNarrows(books, f[k := v], f);
  }

  /** A non-empty search keeps exactly the books whose lower-cased title or isbn has the lower-cased query in it. */
  lemma SearchCriterion(b: Book, f: Filters, q: string)
    requires Get(f, SEARCH_QUERY) == Some(q) && q != ""
    ensures SearchOk(b, f) <==>
              (exists i :: OccursAt(Lower(b.title), Lower(q), i))
              || (exists i :: OccursAt(Lower(b.isbn), Lower(q), i))
  {
    LowerEmpty(q);
    ContainsAt(Lower(b.title), Lower(q));
    ContainsAt(Lower(b.isbn), Lower(q));
  }

  /** The search ignores case: a query and its lower-cased form keep the same books. */
  lemma SearchIgnoresCase(b: Book, f: Filters, q: string)
    ensures SearchOk(b, f[SEARCH_QUERY := q]) == SearchOk(b, f[SEARCH_QUERY := Lower(q)])
  {
    LowerIdempotent(q);
  }

  /** A non-empty author filter keeps exactly the books whose lower-cased author has it in it. */
  lemma AuthorCriterion(b: Book, f: Filters, a: string)
    requires Get(f, AUTHOR) == Some(a) && a != ""
    ensures AuthorOk(b, f) <==> exists i :: OccursAt(Lower(b.author), Lower(a), i)
  {
    ContainsAt(Lower(b.author), Lower(a));
  }

  /** A genre filter other than "all" keeps exactly the books of that genre, compared case-sensitively. */
  lemma GenreCriterion(b: Book, f: Filters, g: string)
    requires Get(f, GENRE) == Some(g) && g != "" && g != "all"
    ensures GenreOk(b, f) <==> b.genre == Str(g)
  {
  }

  /** A price range "lo-hi" keeps the books priced from lo to hi, both included. */
  lemma PriceCriterion(b: Book, f: Filters, p: int, lo: nat, hi: nat)
    requires Get(f, PRICE_RANGE) == Some(RangeString(lo, hi)) && ToNumber(b.price) == Num(p)
    ensures PriceOk(b, f) <==> lo <= p <= hi
  {
    RangeStringIsActive(lo, hi);
    WithinRangeInclusive(b.price, p, lo, hi);
  }

  /** A year range "start-end" keeps the books from start to end, both included. */
  lemma YearCriterion(b: Book, f: Filters, y: int, start: nat, end: nat)
    requires Get(f, YEAR) == Some(RangeString(start, end)) && ToNumber(b.year) == Num(y)
    ensures YearOk(b, f) <==> start <= y <= end
  {
    RangeStringIsActive(start, end);
    WithinRangeInclusive(b.year, y, start, end);
  }

  /** A book whose year is 'N/A' is never excluded by a year range: both comparisons are false. */
  lemma UnknownYearKept(b: Book, f: Filters)
    requires b.year == Str("N/A")
    ensures YearOk(b, f)
  {
    ParseNumberNonDigit("N/A", 0);
    if y :| Get(f, YEAR) == Some(y) {
      NaNIncomparable(b.year, ParseRange(y).0);
      NaNIncomparable(b.year, ParseRange(y).1);
    }
  }

  /**
   * For genre, price and year, the value "all" and an absent key impose the
   * same (no) restriction, so a record holding "all" filters like one without the key.
   */
  lemma AllImposesNothing(b: Book, f: Filters, k: string)
    requires k in {GENRE, PRICE_RANGE, YEAR}
    ensures Keep(b, f[k := "all"]) == Keep(b, f - {k})
  {
    assert Get(f[k := "all"], SEARCH_QUERY) == Get(f - {k}, SEARCH_QUERY);
    assert Get(f[k := "all"], AUTHOR) == Get(f - {k}, AUTHOR);
  }
}
