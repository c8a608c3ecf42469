# FrontBookStore core, modelled in Dafny

FrontBookStore is a React storefront for a book shop. This project models the
logic underneath its pages and proves properties of it:

- the cart context, with its four list operations and two sums;
- the catalogue-filter predicate of the book list and the filter records the
  home page and the filter panel build;
- the normalisation of book records by the catalogue API and its HTTP error
  rule;
- the payment API's request check, payload defaults and message selection;
- the checkout balance gate and confirmation step;
- the auth context's user and debit;
- the profile page's editing, mock load, membership number and recharge;
- the book-detail page's record defaults, cart payload, stock gating and
  render order.

Each source file is one module. Pure code is modelled as datatypes, functions
and lemmas. State that React keeps with `useState` becomes a class whose
methods reassign its fields.

| module (file) | models |
|---|---|
| `Wrappers` (wrappers.dfy) | `Option`, for a property that may be missing |
| `Strings` (strings.dfy) | the string built-ins the code calls: `toLowerCase`, `trim`, `startsWith`, `includes`, `split`, number-to-text, `Number()` on text |
| `Js` (js.dfy) | JavaScript values: truthiness, `\|\|`, `===`, `Number()`, `<` and `<=` against a number |
| `BookApi` (book_api.dfy) | src/api/bookApi.js |
| `BookList` (book_list.dfy) | src/components/BookList.jsx |
| `BookFilter` (book_filter.dfy) | src/components/BookFilter.jsx |
| `Home` (home.dfy) | src/pages/Home.jsx |
| `Cart` (cart.dfy) | src/contexts/CartContext.jsx |
| `Auth` (auth.dfy) | src/contexts/AuthContext.jsx |
| `Checkout` (checkout.dfy) | src/pages/CheckoutPage.jsx |
| `Profile` (profile.dfy) | src/pages/ProfilePage.jsx |
| `PaymentApi` (payment_api.dfy) | src/api/paymentApi.js |
| `BookDetail` (book_detail.dfy) | src/pages/BookDetail.jsx |

Conventions:

- A JavaScript value is `Js.Value`. Numbers are integers plus `NaN`; prices,
  years, balances and counts in this code are whole numbers.
- A property that is undefined is a missing key or `None`.
- A filter record is a `map<string, string>`. A key set to `undefined` is
  simply absent from the map.
- Cart ids are compared with `===`. Well-formed carts hold no `NaN` id, since
  JSON cannot carry one.
- HTTP exchanges are inputs. `BookApi.FetchResponse` carries the `ok` flag,
  the status and the body. `PaymentApi.HttpOutcome` is either no response or
  a response with a status and a body. A response with a 2xx status resolves
  the request; any other status rejects it.
- `new Date(d).getFullYear()` is the parameter `fullYear` of `BookList.Loaded`.
- Math.random's draw is a `:|` choice in range.
- The timer in the checkout page fires as one atomic step.

The pieces are composed as their files are written, including where the
composition does not line up:

- The home page passes its filter panel a prop named `onFilterChange`
  (src/pages/Home.jsx:27), but the panel calls a prop named `setFilters`
  (src/components/BookFilter.jsx:1). `BookFilter` therefore models the records
  the panel would hand over. `Home` models the page's own handlers.
- `getBooks` already turns a relative image name into a full URL
  (src/api/bookApi.js:14-18). The book list then puts its container URL in
  front of it again (src/components/BookList.jsx:28-30).
  `BookList.LoadedAfterNormalize` proves that the URL ends up with the
  container twice. `BookDetail.DetailedImageAfterNormalize` proves that the
  detail page shows it once.
- The normalised `year` is overwritten by the detail page: `year` becomes
  `publicationYear || null` (`BookDetail.YearFallbackDropped`).
- `getUserBalance` replaces the messages of its own checks with the generic
  one (`PaymentApi.OwnChecksReadGeneric`).
- The checkout page confirms the order without charging anything. The
  balance is left unchanged (`Checkout.CheckoutPage.HandleSubmit`).
- The profile page keeps a balance of its own (500 000 after loading). It is
  separate from the auth context's user balance (550 000).

## Model

| member | source | states |
|---|---|---|
| Strings.Trim | src/api/bookApi.js:17 | `trim()` gives a slice of the text that neither starts nor ends with white space; everything cut off before and after it is white space |
| Strings.TrimIdempotent | src/components/BookList.jsx:29 | trimming trimmed text changes nothing |
| Strings.ContainsAt | src/components/BookList.jsx:46 | `includes(sub)` holds exactly when `sub` occurs at some position |
| Strings.ParseNumberOfNat | src/components/BookList.jsx:54 | `Number()` reads back the decimal text of every natural number |
| Strings.ParseNumberNonDigit | src/components/BookList.jsx:26 | text holding a character that is neither a digit nor white space, such as 'N/A', converts to NaN |
| Js.ToNumber | src/components/BookList.jsx:54 | `Number(v)` is always a number (possibly NaN) |
| Js.NaNIncomparable | src/components/BookList.jsx:63 | a value that converts to NaN is neither below nor above anything |
| BookApi.AzureUrlIsAbsolute | src/api/bookApi.js:2 | the storage URL starts with "http", so a URL built from it counts as absolute |
| BookApi.NormalizedImageUrl | src/api/bookApi.js:14-18 | a missing or empty image URL becomes null; one starting with "http" is kept; any other becomes the storage URL plus the trimmed, lower-cased name; every result starts with "http" |
| BookApi.NormalizeFields | src/api/bookApi.js:7-20 | `id` is `bookId` when truthy, else `id`; `genre` is `category` when truthy, else `genre`; `year` is `publicationYear` when truthy, else `year`; every other field is copied |
| BookApi.NormalizeIdempotent | src/api/bookApi.js:7-20 | normalising twice equals normalising once |
| BookApi.HandleResponse | src/api/bookApi.js:25-31 | an ok response yields its body (or the JSON error); a non-ok one fails with the body's non-empty message, else with "HTTP error! status: N"; the failure message is never empty |
| BookApi.StatusMessageRoundTrip | src/api/bookApi.js:28 | the status can be read back from the fallback message |
| BookApi.NormalizeAll | src/api/bookApi.js:38 | the mapped list has the same length and order, each record normalised |
| BookApi.ListResponse | src/api/bookApi.js:34-43 | getBooks (and searchBooks, getBooksByCategory) succeed exactly on an ok JSON response, with the same number of records, each normalised; otherwise the handleResponse failure |
| BookApi.DetailsResponse | src/api/bookApi.js:46-55 | getBookDetails succeeds exactly on an ok JSON response, with the normalised record; otherwise the handleResponse failure |
| BookList.LoadedImage | src/components/BookList.jsx:28-30 | a non-empty image URL becomes the base URL plus its trimmed, lower-cased form; otherwise the default image; never empty |
| BookList.Loaded | src/components/BookList.jsx:22-31 | `id` is `bookId`; `genre` is the category when truthy, else 'Sin género'; `year` is the date's full year when the date is truthy, else 'N/A'; `image` per LoadedImage; every other field copied |
| BookList.SameContainer | src/components/BookList.jsx:7-9 | the list's base URL and the API's storage URL are the same text |
| BookList.BaseUrlIsClean | src/components/BookList.jsx:9 | the base URL is already lower-case and has no white space at its ends |
| BookList.NormalizedNameIsClean | src/components/BookList.jsx:29 | a normalised image URL is unchanged by `trim().toLowerCase()` |
| BookList.LoadedAfterNormalize | src/components/BookList.jsx:28-30 | a relative image name that getBooks normalised ends up with the container URL twice in the list's `image` |
| BookList.LoadAll | src/components/BookList.jsx:22 | `data.map(...)` keeps length and order and maps each record by Loaded |
| BookList.ParseRange | src/components/BookList.jsx:54 | the lower bound of `split('-').map(Number)` is a number (possibly NaN); so is the upper bound when the text has a '-', otherwise it is undefined, which compares like NaN |
| BookList.ParseRangeRoundTrip | src/components/BookList.jsx:62 | parsing "lo-hi" gives back lo and hi |
| BookList.RangeStringIsActive | src/components/BookList.jsx:53 | a "lo-hi" text is neither empty nor 'all', so it is applied |
| BookList.WithinRangeInclusive | src/components/BookList.jsx:55 | a number is within "lo-hi" exactly when lo ≤ it ≤ hi |
| BookList.FilteredBooks | src/components/BookList.jsx:43-66 | a book is in the result exactly when it is loaded and meets every criterion; the result is no longer than the list |
| BookList.FilteredCounts | src/components/BookList.jsx:43 | a kept record occurs in the result as often as in the loaded list; a rejected one never occurs |
| BookList.FilteredIsSubsequence | src/components/BookList.jsx:43-66 | the result keeps the loaded order (it is a subsequence) |
| BookList.EmptyFiltersKeepAll | src/components/BookList.jsx:43-66 | with the empty record every loaded book is returned, in order |
| BookList.KeepNarrows | src/components/BookList.jsx:43-66 | a book passing a record that imposes at least the criteria of another passes that other record |
| BookList.FilterNarrows | src/components/BookList.jsx:43-66 | filtering by a narrower record gives a subsequence of, and no more books than, filtering by the wider one |
| BookList.AddCriterionNarrows | src/components/BookList.jsx:43-66 | setting a criterion that was not in force never enlarges the result |
| BookList.SearchCriterion | src/components/BookList.jsx:44-49 | a non-empty search keeps exactly the books whose lower-cased title or isbn contains the lower-cased query |
| BookList.SearchIgnoresCase | src/components/BookList.jsx:44-47 | a query and its lower-cased form keep the same books |
| BookList.GenreCriterion | src/components/BookList.jsx:50-52 | a genre other than empty or 'all' keeps exactly the books whose genre equals it, case-sensitively |
| BookList.PriceCriterion | src/components/BookList.jsx:53-56 | a price range "lo-hi" keeps the books priced from lo to hi, both included |
| BookList.AuthorCriterion | src/components/BookList.jsx:57-60 | a non-empty author keeps exactly the books whose lower-cased author contains the lower-cased filter |
| BookList.YearCriterion | src/components/BookList.jsx:61-64 | a year range "start-end" keeps the books from start to end, both included |
| BookList.UnknownYearKept | src/components/BookList.jsx:61-64 | a book whose year is 'N/A' is never excluded by a year filter |
| BookList.AllImposesNothing | src/components/BookList.jsx:50-64 | for genre, price and year, the value 'all' filters like an absent key |
| BookFilter.Changed | src/components/BookFilter.jsx:2-8 | the changed field takes the new value, every other field is kept, and no other key appears |
| BookFilter.ChangedOverrides | src/components/BookFilter.jsx:2-8 | a later change of a control overrides an earlier one |
| BookFilter.ChangedCommutes | src/components/BookFilter.jsx:2-8 | changes to two different controls commute |
| BookFilter.Cleared | src/components/BookFilter.jsx:80-86 | Clear Filters gives genre, priceRange and year 'all', author '', the current search, and no other key |
| BookFilter.ClearedIdempotent | src/components/BookFilter.jsx:80-86 | clearing twice equals clearing once |
| BookFilter.ClearedForgetsChanges | src/components/BookFilter.jsx:80-86 | a change to any control other than the search is forgotten by clearing |
| BookFilter.ClearedImposesOnlySearch | src/components/BookFilter.jsx:80-86 | after clearing, a book is kept exactly when it matches the search |
| BookFilter.ClearedListIsSearchOnly | src/components/BookFilter.jsx:80-86 | the list after clearing equals the list filtered by the search alone |
| BookFilter.SameKeepSameList | src/components/BookList.jsx:43-66 | two records that keep the same books give the same filtered list |
| BookFilter.PriceOptionsAreRanges | src/components/BookFilter.jsx:39-43 | after 'all', every price option is "lo-hi" for its bounds, with lo ≤ hi |
| BookFilter.YearOptionsAreRanges | src/components/BookFilter.jsx:68-75 | after 'all', every year option is "start-end" for its bounds, with start ≤ end |
| BookFilter.PriceOptionSelects | src/components/BookFilter.jsx:39-43 | choosing a price option keeps exactly the books priced within its bounds |
| BookFilter.YearOptionSelects | src/components/BookFilter.jsx:68-75 | choosing a year option keeps exactly the books from within its bounds |
| BookFilter.BoundaryYearInTwoOptions | src/components/BookFilter.jsx:72-73 | a book from 2010 passes both "2000-2010" and "2010-2020" |
| BookFilter.CapitalisedGenreMatchesNoOption | src/components/BookFilter.jsx:21-26 | the genre options are lower-case and the test is case-sensitive, so a capitalised genre matches none of them |
| Home.FilterChanged | src/pages/Home.jsx:9-15 | 'clear' empties the record; value 'all' unsets the key; any other value is stored; all other keys are kept |
| Home.Searched | src/pages/Home.jsx:17-19 | only `searchQuery` changes, to the query |
| Home.ClearShowsAll | src/pages/Home.jsx:10-11 | after 'clear' every loaded book is listed |
| Home.AllAgreesWithList | src/pages/Home.jsx:13 | unsetting a key with 'all' keeps the same books as storing 'all' under it |
| Home.FilterChangedNarrows | src/pages/Home.jsx:13 | storing a value for a criterion not in force never enlarges the list |
| Home.SearchReplaces | src/pages/Home.jsx:17-19 | a new search replaces the previous one |
| Home.HomePage.constructor | src/pages/Home.jsx:7 | the initial record is empty |
| Home.HomePage.HandleFilterChange | src/pages/Home.jsx:9-15 | the new record is FilterChanged of the old one |
| Home.HomePage.HandleSearch | src/pages/Home.jsx:17-19 | the new record is Searched of the old one |
| Cart.Added | src/contexts/CartContext.jsx:15-27 | a book whose id is absent is appended with quantity 1, whatever quantity it carried; otherwise the length is unchanged |
| Cart.Removed | src/contexts/CartContext.jsx:29-31 | the result is no longer than the cart |
| Cart.Requantified | src/contexts/CartContext.jsx:38-42 | the length is unchanged |
| Cart.Updated | src/contexts/CartContext.jsx:33-43 | a quantity ≤ 0 acts exactly as removeFromCart; a positive one sets that quantity |
| Cart.AddNewAppends | src/contexts/CartContext.jsx:25 | adding an absent id appends one entry with quantity 1 and keeps every earlier entry |
| Cart.AddPresentIncrements | src/contexts/CartContext.jsx:17-23 | adding a present id raises that entry's quantity by exactly 1; nothing else changes |
| Cart.AddedWellFormed | src/contexts/CartContext.jsx:15-27 | adding keeps ids unique and quantities ≥ 1 |
| Cart.RemovedContents | src/contexts/CartContext.jsx:30 | removal keeps exactly the entries whose id is not the removed one |
| Cart.RemoveAbsent | src/contexts/CartContext.jsx:30 | removing an absent id leaves the cart unchanged |
| Cart.RemoveDeletes | src/contexts/CartContext.jsx:30 | removing the id of entry k deletes exactly that entry and keeps the others in order |
| Cart.RemovedWellFormed | src/contexts/CartContext.jsx:29-31 | removing keeps ids unique and quantities ≥ 1 |
| Cart.RequantifyAbsent | src/contexts/CartContext.jsx:38-42 | setting the quantity of an absent id changes nothing |
| Cart.RequantifySets | src/contexts/CartContext.jsx:38-42 | setting the quantity of entry k's id changes that quantity and nothing else |
| Cart.UpdatedWellFormed | src/contexts/CartContext.jsx:33-43 | updating keeps ids unique and quantities ≥ 1 |
| Cart.DecrementFromOneRemoves | src/contexts/CartContext.jsx:34-36 | decrementing an entry of quantity 1 removes it, just as removeFromCart does |
| Cart.TotalAfterAddExisting | src/contexts/CartContext.jsx:49-57 | re-adding an existing item raises the total by its price and the count by 1 |
| Cart.TotalAfterAddNew | src/contexts/CartContext.jsx:49-57 | adding a new item raises the total by its price and the count by 1 |
| Cart.TotalAfterRemove | src/contexts/CartContext.jsx:49-57 | removing an entry takes its price × quantity out of the total and its quantity out of the count |
| Cart.TotalAfterUpdate | src/contexts/CartContext.jsx:49-57 | setting a quantity replaces the entry's line amount in the total and its quantity in the count |
| Cart.CountAtLeastLength | src/contexts/CartContext.jsx:54-57 | in a well-formed cart the item count is at least the number of entries |
| Cart.CartStore.constructor | src/contexts/CartContext.jsx:6-9 | the cart starts as the saved list, or empty when nothing was saved; it is valid exactly when nothing was saved or the saved list is well formed |
| Cart.CartStore.CartItemCount | src/contexts/CartContext.jsx:54-57 | in a valid cart the item count is at least the number of entries |
| Cart.CartStore.AddToCart | src/contexts/CartContext.jsx:15-27 | the new list is Added of the old one; a well-formed cart stays well formed |
| Cart.CartStore.RemoveFromCart | src/contexts/CartContext.jsx:29-31 | the new list is Removed of the old one; a well-formed cart stays well formed |
| Cart.CartStore.UpdateQuantity | src/contexts/CartContext.jsx:33-43 | the new list is Updated of the old one; a well-formed cart stays well formed |
| Cart.CartStore.ClearCart | src/contexts/CartContext.jsx:45-47 | the cart is empty, so the total and the count are 0 |
| Auth.Debit | src/contexts/AuthContext.jsx:17-22 | the balance drops by the amount; name and email are kept |
| Auth.DebitCompose | src/contexts/AuthContext.jsx:17-22 | debiting a and then b equals debiting a + b |
| Auth.DebitCancel | src/contexts/AuthContext.jsx:17-22 | a debit followed by a debit of minus the amount restores the user |
| Auth.AuthStore.constructor | src/contexts/AuthContext.jsx:6 | there is no user before the mount effect |
| Auth.AuthStore.Mount | src/contexts/AuthContext.jsx:8-15 | the user becomes the fixed record with balance 550000 |
| Auth.AuthStore.UpdateBalance | src/contexts/AuthContext.jsx:17-22 | with a user, the user becomes Debit of the old one; with none, the update fails and nothing changes |
| Checkout.Balance | src/pages/CheckoutPage.jsx:106 | a missing user counts as 0; otherwise the balance is the user's |
| Checkout.SummaryLines | src/pages/CheckoutPage.jsx:47-55 | one line per cart entry, with its title, quantity and price × quantity |
| Checkout.LinesAddUpToTotal | src/pages/CheckoutPage.jsx:47-59 | the summary lines add up to the shown total, the cart's total |
| Checkout.View | src/pages/CheckoutPage.jsx:21-117 | a confirmed order shows only the confirmation; otherwise the warning shows exactly when confirm is disabled, which is exactly when the total exceeds the balance, and the shortfall shown is total − balance > 0 |
| Checkout.GateBoundary | src/pages/CheckoutPage.jsx:115 | a total equal to the balance is allowed |
| Checkout.AddAtBalanceDisables | src/pages/CheckoutPage.jsx:115 | at a total equal to the balance, adding a new priced book disables confirm |
| Checkout.NoUserGate | src/pages/CheckoutPage.jsx:106 | without a user, confirm is disabled exactly when the total is positive |
| Checkout.CheckoutPage.constructor | src/pages/CheckoutPage.jsx:10 | the order starts unconfirmed |
| Checkout.CheckoutPage.HandleSubmit | src/pages/CheckoutPage.jsx:12-19 | the order is confirmed, the cart is empty, the user's balance is unchanged, and only the confirmation renders |
| Profile.MembershipNumber | src/pages/ProfilePage.jsx:13 | the number is 'LIB-' followed by the text of an integer from 100000 to 999999 (10 characters) |
| Profile.MembershipNumberReadsBack | src/pages/ProfilePage.jsx:13 | the part after 'LIB-' is all digits and reads back as 100000 + the draw |
| Profile.InitialUserData | src/pages/ProfilePage.jsx:5-14 | the initial record has balance 0, empty age and the drawn membership number |
| Profile.Loaded | src/pages/ProfilePage.jsx:25-34 | the load overwrites the listed fields with the mock values and keeps the membership number |
| Profile.LoadedIdempotent | src/pages/ProfilePage.jsx:25-34 | loading twice equals loading once |
| Profile.WithField | src/pages/ProfilePage.jsx:40-43 | an input change keeps the balance and the membership number |
| Profile.WithFieldSetsOnlyThat | src/pages/ProfilePage.jsx:40-43 | the named field takes the typed value and every other field is kept |
| Profile.WithFieldOverrides | src/pages/ProfilePage.jsx:40-43 | a later change of a field overrides an earlier one |
| Profile.RechargeBounds | src/pages/ProfilePage.jsx:52 | a recharge is accepted exactly when 50000 ≤ amount ≤ 200000 |
| Profile.InitialAmountAccepted | src/pages/ProfilePage.jsx:16 | the initial amount of 50000 is accepted |
| Profile.Recharged | src/pages/ProfilePage.jsx:58-61 | the balance grows by the amount and nothing else changes |
| Profile.RechargedCompose | src/pages/ProfilePage.jsx:58-61 | two recharges add up |
| Profile.AcceptedRechargeRaises | src/pages/ProfilePage.jsx:52-61 | an accepted recharge raises the balance by at least 50000 and at most 200000 |
| Profile.ProfilePage.constructor | src/pages/ProfilePage.jsx:5-17 | the record is the initial one for some draw in range; the amount is 50000 and accepted; not editing |
| Profile.ProfilePage.Load | src/pages/ProfilePage.jsx:21-38 | the record becomes Loaded of the old one; nothing else changes |
| Profile.ProfilePage.HandleInputChange | src/pages/ProfilePage.jsx:40-43 | the record becomes WithField of the old one; nothing else changes |
| Profile.ProfilePage.HandleSave | src/pages/ProfilePage.jsx:45-49 | editing ends and the record is unchanged |
| Profile.ProfilePage.Edit | src/pages/ProfilePage.jsx:145 | editing starts; the record is unchanged |
| Profile.ProfilePage.Cancel | src/pages/ProfilePage.jsx:137 | editing ends; the edits made stay in the record |
| Profile.ProfilePage.SetRechargeAmount | src/pages/ProfilePage.jsx:107 | the amount becomes the entered number; nothing else changes |
| Profile.ProfilePage.HandleRecharge | src/pages/ProfilePage.jsx:51-63 | accepted iff 50000 ≤ amount ≤ 200000; an accepted amount is added to the balance; a rejected one changes nothing |
| PaymentApi.RequestError | src/api/paymentApi.js:31-34 | a request without a response rejects with its own message; a non-2xx response rejects with that response attached |
| PaymentApi.Payload | src/api/paymentApi.js:21-27 | email, total and items are copied; ipCliente defaults to 'unknown' and paymentMethod to 'membership' |
| PaymentApi.PayloadIdempotent | src/api/paymentApi.js:21-27 | defaulting a payload again changes nothing |
| PaymentApi.PaymentErrorMessage | src/api/paymentApi.js:52-65 | 400 gives the body's message or 'Datos de pago inválidos'; 404 gives the not-found text; any other status gives the connection text; without a response, the error's own message or the connection text |
| PaymentApi.ProcessPayment | src/api/paymentApi.js:13-69 | the payload is sent exactly when email, total and items are truthy; otherwise the payment fails with 'Faltan datos requeridos para el pago' and nothing is sent |
| PaymentApi.ZeroTotalRejected | src/api/paymentApi.js:16-18 | a total of 0 is refused before sending |
| PaymentApi.SuccessCopiesBody | src/api/paymentApi.js:40-44 | a successful response pays with newBalance and message exactly as given |
| PaymentApi.UnsuccessfulBody | src/api/paymentApi.js:36-38 | a 2xx response without truthy success fails with its message or 'Error en el servidor' |
| PaymentApi.RejectedStatusMessages | src/api/paymentApi.js:54-62 | 400, 404 and every other rejected status give their messages, whatever the error itself said |
| PaymentApi.NoResponseMessage | src/api/paymentApi.js:63-65 | without a response the error's own message, or the connection text, is kept |
| PaymentApi.PaidOnlyOnSuccess | src/api/paymentApi.js:36-44 | a payment succeeds only with a valid request, a 2xx response and a truthy success flag |
| PaymentApi.BalanceErrorMessage | src/api/paymentApi.js:101-105 | the body's message first; else 401 gives the expired-session text and anything else 'Error obteniendo saldo' |
| PaymentApi.GetUserBalance | src/api/paymentApi.js:72-107 | the request is sent exactly for a string email containing '@'; it returns membershipBalance exactly when that is a number in a 2xx response |
| PaymentApi.OwnChecksReadGeneric | src/api/paymentApi.js:75-105 | an invalid email and a malformed balance both fail with 'Error obteniendo saldo' |
| PaymentApi.BalanceRejectedMessages | src/api/paymentApi.js:101-105 | rejected statuses give the server's message, else the 401 text or the generic one |
| PaymentApi.BalanceNoResponse | src/api/paymentApi.js:101-105 | without a response the error's own message is replaced by the generic one |
| PaymentApi.InvalidCredentialsNeverSurfaces | src/api/paymentApi.js:75-76 | 'Credenciales inválidas' reaches the caller only when the server itself sends it |
| BookDetail.Detailed | src/pages/BookDetail.jsx:18-23 | genre is the category or 'No category'; year is publicationYear or null; image is imageUrl or the default; every other field copied |
| BookDetail.DetailedImageAfterNormalize | src/pages/BookDetail.jsx:22 | a relative image name shows with the container URL once |
| BookDetail.YearFallbackDropped | src/pages/BookDetail.jsx:21 | without a truthy publicationYear the year is null, even where normalisation kept `year` |
| BookDetail.CartPayload | src/pages/BookDetail.jsx:132-139 | id is bookId or id; price is the price or 0; image is the image or the default; quantity is 1 |
| BookDetail.PayloadImageNonEmpty | src/pages/BookDetail.jsx:137 | the payload image of a fetched book is never empty |
| BookDetail.AddShownBook | src/pages/BookDetail.jsx:132-139 | adding the shown book to a cart without it appends exactly the payload |
| BookDetail.StockLabel | src/pages/BookDetail.jsx:144 | the label is 'Add to Cart' exactly when stock > 0 |
| BookDetail.StockGateAgrees | src/pages/BookDetail.jsx:142-144 | for numeric stock the button is disabled exactly when stock ≤ 0, exactly when it reads 'Out of Stock' |
| BookDetail.MissingStockEnabled | src/pages/BookDetail.jsx:142-144 | a book without stock reads 'Out of Stock' yet its button stays enabled |
| BookDetail.View | src/pages/BookDetail.jsx:34-56 | loading first, then a non-empty error, then a missing book, and only then the details |
| BookDetail.BookDetailPage.constructor | src/pages/BookDetail.jsx:9-11 | no book, loading, no error: the spinner renders |
| BookDetail.BookDetailPage.Fetched | src/pages/BookDetail.jsx:14-29 | loading ends; a record is kept with its defaults, or the error message is kept; a first success renders the details |
| BookDetail.FailedFetchShowsError | src/pages/BookDetail.jsx:42-48 | a failed request always shows its message, since that message is never empty |

## Left out

- HTTP transport: fetch, axios, headers, the auth token, timeouts and URLs
  are left out. Responses and outcomes are inputs.
- localStorage: reading the saved cart (src/contexts/CartContext.jsx:6-9) is
  the constructor's argument. Writing the cart back on every change (lines
  11-13) is not modelled.
- Cart.CartStore.constructor: a saved text that is not valid JSON makes
  `JSON.parse` throw; this is not modelled.
- Timing: the checkout timer is one atomic step.
- Randomness: the membership number's draw is any value in range.
- Printing: console output and `alert` are left out. So is number and date
  formatting: `toFixed`, `toLocaleString`, `toLocaleDateString` and star
  rounding.
- BookList.Loaded: `new Date(d).getFullYear()` is the parameter `fullYear`;
  date parsing is not modelled.
- BookList.FilteredBooks: a book's `title`, `author` and `isbn` are always
  strings here. In the source, a record missing one of them makes
  `toLowerCase()` throw a TypeError when a search or author filter reaches
  that field (src/components/BookList.jsx:46-47, 58). The detail page's
  'Unknown Author' and 'N/A' fallbacks (src/pages/BookDetail.jsx:76, 105) are
  display text and are not modelled either.
- Strings.Lower: lower-cases ASCII letters only. Unicode case mapping is not
  modelled.
- Strings.Trim: removes the most common white-space characters only, not
  every Unicode space that `trim()` removes.
- Strings.ParseNumber: reads only the empty text and runs of decimal digits.
  Signs, decimals, exponents, hex, 'Infinity' and similar forms read as NaN
  here, although JavaScript reads them as numbers.
- Js.ToNumber: every object converts to NaN. Two objects are taken to be the
  same object under `===`.
- BookApi.HandleResponse: a non-ok body that is JSON `null` makes
  `errorData.message` throw; this is not modelled. A message that is not a
  string is not modelled either.
- BookDetail.CartPayload: a truthy price that is not a number becomes 0 here,
  because cart prices are integers. The source would pass it through.
- Profile.ProfilePage.SetRechargeAmount: takes an integer. A fractional or
  NaN amount from the number input is not modelled.
- Home.FilterChanged: `[type]: undefined` keeps the key with value
  undefined. Here the key is removed. Every reader treats the two alike.
- BookDetail.BookDetailPage.Fetched: only the first fetch is modelled. A
  re-fetch when the route id changes, without resetting the state, is not.
- Other bookApi.js operations are not modelled separately:
  - uploadBookImage and deleteBook are admin requests;
  - addBook and updateBook normalise their one record exactly as
    getBookDetails does (BookApi.DetailsResponse).
- src/api/transactionApi.js, src/api/authApi.js and src/api/userApi.js are
  not part of this model. They are request wrappers and an IP lookup.
- The book list's Add button (src/components/BookList.jsx:122-137) is not
  modelled. It passes `imageUrl` instead of `image`.
- Routing and presentation are not modelled: src/App.js, ProtectedRoute,
  Navbar, LoginPage, BookSearch and CartPage.
- src/App.js:12 imports a named `ProtectedRoute`, which is only a default
  export.
- `login`, `logout` and `loading` are used by LoginPage, Navbar and
  ProtectedRoute but not provided by the auth context.
