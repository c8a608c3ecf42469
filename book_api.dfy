/**
 * src/api/bookApi.js: the normalisation applied to every book record the
 * catalogue service returns, the HTTP error rule shared by its requests, and
 * the endpoints that read the catalogue. The HTTP exchange itself is an input.
 */
module BookApi {
  import opened Wrappers
  import opened Strings
  import opened Js

  /** The storage container's address (written in two pieces only to keep each literal short). */
  const AZURE_STORAGE_HOST := "https://imagesbooks.blob.core.windows.net/"
  const AZURE_STORAGE_URL := AZURE_STORAGE_HOST + "bookimages/"

  /**
   * A book record as the pages see it. The fields left Undefined are absent;
   * title, author and isbn are the strings every listed book carries.
   */
  datatype Book = Book(
    bookId: Value, id: Value,
    category: Value, genre: Value,
    publicationYear: Value, year: Value,
    imageUrl: Option<string>, image: Value,
    title: string, author: string, isbn: string,
    price: Value, stock: Value, dateEntry: Value)

  lemma AzureUrlIsAbsolute()
    ensures StartsWith(AZURE_STORAGE_URL, "http")
  {
    assert StartsWith(AZURE_STORAGE_HOST, "http") by {
      var h := AZURE_STORAGE_HOST;
      assert h[0] == 'h' && h[1] == 't' && h[2] == 't' && h[3] == 'p';
      assert h[..4] == "http";
    }
    StartsWithAppend(AZURE_STORAGE_HOST, "bookimages/", "http");
  }

  /** The image rule of normalizeBookData. */
  function NormalizedImageUrl(url: Option<string>): (r: Option<string>)
    ensures r.Some? <==> url.Some? && url.value != ""
    ensures r.Some? && StartsWith(url.value, "http") ==> r == url
    ensures r.Some? && !StartsWith(url.value, "http") ==>
              r.value == AZURE_STORAGE_URL + Lower(Trim(url.value))
    ensures r.Some? ==> StartsWith(r.value, "http")
  {
    match url
    case Some(u) =>
      if u == "" then None
      else if StartsWith(u, "http") then Some(u)
      else
        AzureUrlIsAbsolute();
        StartsWithAppend(AZURE_STORAGE_URL, Lower(Trim(u)), "http");
        Some(AZURE_STORAGE_URL + Lower(Trim(u)))
    case None => None
  }

  /** normalizeBookData: id, genre and year fallbacks and an absolute image URL. */
  function Normalize(b: Book): Book
  {
    b.(id := Or(b.bookId, b.id),
       genre := Or(b.category, b.genre),
       year := Or(b.publicationYear, b.year),
       imageUrl := NormalizedImageUrl(b.imageUrl))
  }

  /**
   * What normalisation does to each field: the three fallbacks take the first
   * truthy name, and every other field of the record is copied.
   */
  lemma NormalizeFields(b: Book)
    ensures Truthy(b.bookId) ==> Normalize(b).id == b.bookId
    ensures !Truthy(b.bookId) ==> Normalize(b).id == b.id
    ensures Truthy(b.category) ==> Normalize(b).genre == b.category
    ensures !Truthy(b.category) ==> Normalize(b).genre == b.genre
    ensures Truthy(b.publicationYear) ==> Normalize(b).year == b.publicationYear
    ensures !Truthy(b.publicationYear) ==> Normalize(b).year == b.year
    ensures Normalize(b).imageUrl == NormalizedImageUrl(b.imageUrl)
    ensures Normalize(b).(id := b.id, genre := b.genre, year := b.year, imageUrl := b.imageUrl) == b
  {
  }

  /** Normalising an already normalised record changes nothing. */
  lemma NormalizeIdempotent(b: Book)
    ensures Normalize(Normalize(b)) == Normalize(b)
  {
    var u := NormalizedImageUrl(b.imageUrl);
    assert NormalizedImageUrl(u) == u;
  }

  /** The body of a response as response.json() reads it; Malformed when it is not JSON. */
  datatype JsonBody<T> = Malformed | Json(value: T, message: Option<string>)

  /** A fetch() response: the ok flag, the status code and the body. */
  datatype FetchResponse<T> = FetchResponse(ok: bool, status: nat, body: JsonBody<T>)

  /** What a request resolves to: its data, or an Error with a message, or the JSON parse error of an ok response. */
  datatype Result<T> = Ok(value: T) | Err(message: string) | JsonError

  /** handleResponse. */
  function HandleResponse<T>(response: FetchResponse<T>): (r: Result<T>)
    ensures response.ok && response.body.Json? ==> r == Ok(response.body.value)
    ensures response.ok && response.body.Malformed? ==> r == JsonError
    ensures !response.ok ==> r.Err? && r.message != ""
    ensures !response.ok && response.body.Json? && StringOr(response.body.message, "") != "" ==>
              r.message == response.body.message.value
    ensures !response.ok && (response.body.Malformed? || StringOr(response.body.message, "") == "") ==>
              r.message == "HTTP error! status: " + NatToString(response.status)
  {
    if !response.ok then
      var message := if response.body.Json? then response.body.message else None;
      Err(StringOr(message, "HTTP error! status: " + NatToString(response.status)))
    else
      match response.body
      case Json(v, _) => Ok(v)
      case Malformed => JsonError
  }

  /** The status can be read back from the fallback error message. */
  lemma StatusMessageRoundTrip(status: nat)
    ensures var m := "HTTP error! status: " + NatToString(status);
            StartsWith(m, "HTTP error! status: ")
            && ParseNumber(m[|"HTTP error! status: "|..]) == Some(status)
  {
    var p := "HTTP error! status: ";
    var m := p + NatToString(status);
    assert m[..|p|] == p;
    assert m[|p|..] == NatToString(status);
    ParseNumberOfNat(status);
  }

  /** data.map(normalizeBookData). */
  function NormalizeAll(books: seq<Book>): (r: seq<Book>)
    ensures |r| == |books|
    ensures forall i :: 0 <= i < |books| ==> r[i] == Normalize(books[i])
  {
    if books == [] then [] else [Normalize(books[0])] + NormalizeAll(books[1..])
  }

  /**
   * getBooks, searchBooks and getBooksByCategory: the three differ only in the
   * URL they fetch, and each normalises every book of a successful response.
   */
  function ListResponse(response: FetchResponse<seq<Book>>): (r: Result<seq<Book>>)
    ensures r.Ok? <==> response.ok && response.body.Json?
    ensures r.Ok? ==> |r.value| == |response.body.value|
    ensures r.Ok? ==> forall i :: 0 <= i < |r.value| ==> r.value[i] == Normalize(response.body.value[i])
    ensures !r.Ok? ==> r == HandleResponse(response)
  {
    match HandleResponse(response)
    case Ok(data) => Ok(NormalizeAll(data))
    case Err(m) => Err(m)
    case JsonError => JsonError
  }

  /** getBookDetails: one record, normalised. */
  function DetailsResponse(response: FetchResponse<Book>): (r: Result<Book>)
    ensures r.Ok? <==> response.ok && response.body.Json?
    ensures r.Ok? ==> r.value == Normalize(response.body.value)
    ensures !r.Ok? ==> r == HandleResponse(response)
  {
    match HandleResponse(response)
    case Ok(data) => Ok(Normalize(data))
    case Err(m) => Err(m)
    case JsonError => JsonError
  }
}
