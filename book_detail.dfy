/**
 * src/pages/BookDetail.jsx: the record kept for the fetched book, the item the
 * Add to Cart button hands to the cart, the stock gating of that button, and
 * the order in which the page picks what to render.
 */
module BookDetail {
  import opened Wrappers
  import opened Strings
  import opened Js
  import BookApi
  import Cart

  type Book = BookApi.Book

  const DEFAULT_IMAGE := "/images/default-book.jpg"

  /** The record fetchBook keeps: genre, year and image with their fallbacks. */
  function Detailed(data: Book): (r: Book)
    ensures Truthy(data.category) ==> r.genre == data.category
    ensures !Truthy(data.category) ==> r.genre == Str("No category")
    ensures Truthy(data.publicationYear) ==> r.year == data.publicationYear
    ensures !Truthy(data.publicationYear) ==> r.year == Null
    ensures data.imageUrl.Some? && data.imageUrl.value != "" ==> r.image == Str(data.imageUrl.value)
    ensures !(data.imageUrl.Some? && data.imageUrl.value != "") ==> r.image == Str(DEFAULT_IMAGE)
    ensures r.(genre := data.genre, year := data.year, image := data.image) == data
  {
    data.(genre := Or(data.category, Str("No category")),
          year := Or(data.publicationYear, Null),
          image := if data.imageUrl.Some? && data.imageUrl.value != "" then Str(data.imageUrl.value) else Str(DEFAULT_IMAGE))
  }

  /**
   * The page is handed the normalised record, so a relative image name shows
   * with the container URL put in front of it once.
   */
  lemma DetailedImageAfterNormalize(b: Book, s: string)
    requires b.imageUrl == Some(s) && s != "" && !StartsWith(s, "http")
    ensures Detailed(BookApi.Normalize(b)).image == Str(BookApi.AZURE_STORAGE_URL + Lower(Trim(s)))
  {
  }

  /**
   * Normalisation's year fallback does not survive: without a truthy
   * publicationYear the page shows no year, whatever `year` the record had.
   */
  lemma YearFallbackDropped(b: Book)
    requires !Truthy(b.publicationYear)
    ensures Detailed(BookApi.Normalize(b)).year == Null
    ensures BookApi.Normalize(b).year == b.year
  {
  }

  /** `v || fallback` for a field the cart keeps as text. */
  function TextOr(v: Value, fallback: string): string
  {
    if v.Str? && v.s != "" then v.s else fallback
  }

  /** `book.price || 0` for the cart, whose prices are whole numbers. */
  function PriceOrZero(v: Value): int
  {
    if v.Num? then v.n else 0
  }

  /** The item the Add to Cart button hands to addToCart. */
  function CartPayload(book: Book): (item: Cart.CartItem)
    ensures item.id == (if Truthy(book.bookId) then book.bookId else book.id)
    ensures item.title == book.title && item.author == book.author
    ensures item.price == (if book.price.Num? then book.price.n else 0)
    ensures item.image == (if book.image.Str? && book.image.s != "" then book.image.s else DEFAULT_IMAGE)
    ensures item.quantity == 1
  {
    Cart.CartItem(Or(book.bookId, book.id), book.title, book.author, PriceOrZero(book.price),
                  TextOr(book.image, DEFAULT_IMAGE), 1)
  }

  /** For a fetched book the payload's image is never the empty text. */
  lemma PayloadImageNonEmpty(data: Book)
    ensures CartPayload(Detailed(data)).image != ""
  {
  }

  /** Adding the shown book to a cart that lacks it appends the payload with quantity 1. */
  lemma AddShownBook(items: seq<Cart.CartItem>, book: Book)
    requires !Cart.HasId(items, CartPayload(book).id)
    ensures Cart.Added(items, CartPayload(book)) == items + [CartPayload(book)]
  {
  }

  /** `disabled={book.stock <= 0}`. */
  predicate StockDisabled(stock: Value)
  {
    LessEq(stock, Num(0))
  }

  /** The button's label, `book.stock > 0 ? 'Add to Cart' : 'Out of Stock'`. */
  function StockLabel(stock: Value): (text: string)
    ensures Less(Num(0), stock) <==> text == "Add to Cart"
  {
    if Less(Num(0), stock) then "Add to Cart" else "Out of Stock"
  }

  /** For a stock that converts to a number, the button is disabled exactly when it reads 'Out of Stock'. */
  lemma StockGateAgrees(stock: Value, n: int)
    requires ToNumber(stock) == Num(n)
    ensures StockDisabled(stock) <==> n <= 0
    ensures StockDisabled(stock) <==> StockLabel(stock) == "Out of Stock"
  {
  }

  /** A book without a stock field reads 'Out of Stock' and yet its button stays enabled. */
  lemma MissingStockEnabled()
    ensures StockLabel(Undefined) == "Out of Stock" && !StockDisabled(Undefined)
  {
    NaNIncomparable(Undefined, Num(0));
  }

  /** What the page renders. */
  datatype DetailView = Spinner | ErrorBox(message: string) | NotFound | Details(book: Book)

  /** The page first checks loading, then the error, then the missing book. */
  function View(loading: bool, error: Option<string>, book: Option<Book>): (v: DetailView)
    ensures loading ==> v == Spinner
    ensures !loading && error.Some? && error.value != "" ==> v == ErrorBox(error.value)
    ensures !loading && !(error.Some? && error.value != "") && book.None? ==> v == NotFound
    ensures v.Details? <==> !loading && !(error.Some? && error.value != "") && book.Some?
    ensures v.Details? ==> v.book == book.value
  {
    if loading then Spinner
    else if error.Some? && error.value != "" then ErrorBox(error.value)
    else if book.None? then NotFound
    else Details(book.value)
  }

  /** The page's state for one fetch. */
  class BookDetailPage {
    var book: Option<Book>
    var loading: bool
    var error: Option<string>

    constructor ()
      ensures book.None? && loading && error.None?
      ensures Render() == Spinner
    {
      book := None;
      loading := true;
      error := None;
    }

    function Render(): DetailView
      reads this
    {
      View(loading, error, book)
    }

    /**
     * The end of fetchBook for the given result of getBookDetails; a body that
     * is not JSON fails with the parser's message, which is a parameter here.
     */
    method Fetched(result: BookApi.Result<Book>, parseMessage: string)
      modifies this
      ensures !loading
      ensures result.Ok? ==> book == Some(Detailed(result.value)) && error == old(error)
      ensures result.Err? ==> error == Some(result.message) && book == old(book)
      ensures result.JsonError? ==> error == Some(parseMessage) && book == old(book)
      ensures old(error).None? && result.Ok? ==> Render() == Details(Detailed(result.value))
    {
      match result {
        case Ok(data) => book := Some(Detailed(data));
        case Err(m) => error := Some(m);
        case JsonError => error := Some(parseMessage);
      }
      loading := false;
    }
  }

  /** A failed request always shows its message: the messages getBookDetails fails with are never empty. */
  lemma FailedFetchShowsError(response: BookApi.FetchResponse<Book>, book: Option<Book>)
    requires !response.ok
    ensures var r := BookApi.DetailsResponse(response);
            r.Err? && View(false, Some(r.message), book) == ErrorBox(r.message)
  {
  }
}
