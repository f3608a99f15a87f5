# Product catalogue front-end — a Dafny model

This project models the logic of a React product-catalogue front-end and proves properties of it in Dafny. The front-end lists, filters, creates and edits products through a REST API. The model covers:

- **The monetary mask** (`monetaryMask` / `removeMonetaryMask`).
  - `Mask` keeps the digits of its input and reads them as a number of cents. It formats that number the way pt-BR `Intl.NumberFormat` formats BRL: `R$`, a no-break space, the integer part grouped by `.`, then `,` and two decimals.
  - `RemoveMask` runs the pattern `/^\w{0,3}\W?\s?(\d+)[.,](\d+)?,?(\d+)?$/` with JavaScript's backtracking order. It rebuilds the string the way the replacer does, `undefined` included, and applies `Number`.
  - `Number`, and `String` of a number, are modelled on exact decimals `m·10^e` in `JsNumber`. This covers the whitespace trim, signs, `Infinity`, `0x`/`0o`/`0b`, fractions and exponents.
- **The pagination bar** (`Pagination`): the page-change guard, the "Mostrando X a Y de Z" range, the row of page buttons with its highlight, and the previous/next buttons.
- **The list page** (`ProductList`). It is a class whose fields are the page's state: filters, pagination numbers, products, loading flag, the requests made and the error notifications.
  - Its methods are the handlers, the mount effect and the two halves of `fetchProducts`.
  - The request URL is built by successive appends. It is proved equal to a parameter list rendered as `k=v` fields joined by `&`.
  - Splitting that query string back at `&` and `=` gives each filter exactly when it is active, for a name and a location without `&`.
- **The create and edit forms** (`ProductForm`, `ProductCreate`, `ProductEdit`):
  - the Yup schemas;
  - the EAN uniqueness flags as a class (`EanCheck`);
  - the initial values. The edit page opens with its price as the code computes it; a corrected variant sits beside it (see "## Findings");
  - the payload rules: price unmasked, `ean` dropped when unchanged, `active` taken from the product;
  - the pages as classes with their handlers and `handleSubmit`.
- **The `Product` record** (`Products.Product`). It has the fields of `src/types/product.ts:1-10`, plus `sales_location`, which the edit page reads (src/pages/ProductEditPage.tsx:134) although the declared type lacks it.

Three behaviours of the code that a reader might not expect:

- A single separator is always read as the decimal point, so `R$ 1.234` decodes to 1.234, not 1234 (`MonetaryMask.RemoveMaskOfSingleSeparator`).
- A page change stores the requested page before the request goes out. When that request fails, the current page stays at the requested page rather than returning to the previous one (`ProductList.ListPage.SetCurrentPage`, `SettleFetch`).
- Submitting the filters requests page 1 but does not reset the current page before the answer arrives (`ProductList.ListPage.FilterSubmit`).

I/O is represented by parameters:

- an upload's resulting path, or `None` when it threw;
- a request's outcome: a response body, `ok` or not, or thrown;
- the API base URL, as a constant of the list page.

Requests that were issued are recorded in history fields (`requests`, `posted`, `sent`). Error toasts are counted. Navigation home is a flag.

## Model

| member | source | states |
|---|---|---|
| Text.KeepDigits | src/utils/maskMonetary.ts:2 | `replace(/\D/g, '')` keeps only decimal digits and never lengthens the input |
| JsNumber.ToNumber | src/utils/maskMonetary.ts:24 | `Number(s)`: white space trimmed, empty is 0, `0x`/`0o`/`0b`, sign, `Infinity`, decimal and exponent; its results are stated by ToNumberOfDigits, ToNumberOfDecimal, ToNumberOfPointJunk and ToNumberOfJunk |
| JsNumber.ToString | src/utils/maskMonetary.ts:2 | `String(x)`: "NaN", "Infinity" with its sign, "0" for either zero, else the sign and PositiveToString; what the mask keeps of it is stated by DigitsOfPositiveString |
| JsNumber.PositiveToString | src/utils/maskMonetary.ts:2 | Number::toString of a positive m·10^e on the normalized mantissa: plain digits with zeros, a point inside, `0.` with leading zeros, or exponent form; stated by DigitsOfPositiveString |
| JsNumber.ToNumberOfDigits | src/utils/maskMonetary.ts:24 | `Number` of a run of digits is the integer they spell |
| JsNumber.ToNumberOfDecimal | src/utils/maskMonetary.ts:24 | `Number("w.f")` is exactly the decimal w.f, i.e. value(wf)·10^-\|f\| |
| JsNumber.ToNumberOfPointJunk | src/utils/maskMonetary.ts:24 | after the point, a character that is neither a digit nor an exponent makes `Number` NaN (this is how `undefined` from the replacer ends) |
| JsNumber.ToNumberOfJunk | src/utils/maskMonetary.ts:24 | a string that starts with anything but white space, a digit, `.`, a sign or `I` is NaN, so an unmatched mask is NaN |
| JsNumber.Normalize | src/utils/maskMonetary.ts:2 | the shortest mantissa that `String(number)` prints: no trailing zero, same value |
| JsNumber.DigitsOfPositiveString | src/utils/maskMonetary.ts:2 | the digits of `String(x)` for a positive x without exponent notation are its significant digits followed by the zeros of a positive exponent |
| MonetaryMask.Grouped | src/utils/maskMonetary.ts:9-14 | the pt-BR integer part: digits grouped by `.` in threes, no leading zero, whose digits denote the amount |
| MonetaryMask.GroupedOfGrouping | src/utils/maskMonetary.ts:9-14 | inverse of Grouped: every well-grouped integer part is the grouping of the number its digits denote |
| MonetaryMask.Format | src/utils/maskMonetary.ts:9-15 | the BRL rendering of cents/100 has the masked shape and its digits denote exactly the cents |
| MonetaryMask.Mask | src/utils/maskMonetary.ts:1-16 | the result always has the masked shape, whatever the input, and its digits denote the number the input's digits denote |
| MonetaryMask.MatchDecimals | src/utils/maskMonetary.ts:18 | `(\d+)?,?(\d+)?$`: a match holds only digits and commas, and groups 2 and 3, when they take part, are runs of digits |
| MonetaryMask.MatchAmount | src/utils/maskMonetary.ts:18 | `(\d+)[.,]` then the decimals: group1 is the leading run of digits, followed by `.` or `,`; the match captures digits only, and nothing matches unless a digit comes first |
| MonetaryMask.MatchAfterWords | src/utils/maskMonetary.ts:18 | `\W?\s?` tried in backtracking order before the amount; every match captures digits only |
| MonetaryMask.MatchWithWords | src/utils/maskMonetary.ts:18 | `^\w{0,3}` tried from the longest prefix down; every match captures digits only |
| MonetaryMask.Match | src/utils/maskMonetary.ts:18 | the anchored pattern against the whole string; every match has a non-empty digit group1 and digit groups 2 and 3 where they take part |
| MonetaryMask.Shown | src/utils/maskMonetary.ts:19-21 | how a template literal prints a group: its text, or `undefined` when it did not take part; its effect is stated by RemoveMaskOfDanglingSeparator |
| MonetaryMask.Replacement | src/utils/maskMonetary.ts:19-21 | `replacer`: with group3, group1 and group2 joined before the point; without, group1, the point, group2; its results are stated by RemoveMaskOfSingleSeparator, RemoveMaskOfFormat and RemoveMaskOfDanglingSeparator |
| MonetaryMask.Unmasked | src/utils/maskMonetary.ts:24 | `val.replace(exp, replacer)`: the replacement of the match, or the string unchanged when it does not match; stated by RemoveMaskOfDigits and RemoveMaskOfLargeFormat |
| MonetaryMask.RemoveMask | src/utils/maskMonetary.ts:23-25 | `removeMonetaryMask`: `Number` of the unmasked string; its meaning is stated by RemoveMaskOfMask, RemoveMaskOfFormat, RemoveMaskOfLargeFormat, RemoveMaskOfSingleSeparator, RemoveMaskOfDanglingSeparator and RemoveMaskOfDigits |
| MonetaryMask.MaskIsFormat | src/utils/maskMonetary.ts:1-16 | masking is formatting the cents spelt by the input's digits; an input without digits is masked as "0" |
| MonetaryMask.MaskWithoutDigits | src/utils/maskMonetary.ts:5-7 | an input with no digits, the empty string included, masks to `R$ 0,00` |
| MonetaryMask.MaskDependsOnlyOnDigits | src/utils/maskMonetary.ts:2-3 | inputs whose digits denote the same number mask alike |
| MonetaryMask.MaskIdempotent | src/utils/maskMonetary.ts:1-16 | masking a masked value changes nothing |
| MonetaryMask.MaskFixesMasked | src/utils/maskMonetary.ts:1-16 | every string of the masked shape is a fixed point of the mask |
| MonetaryMask.MaskedHasNoSign | src/utils/maskMonetary.ts:9-15 | a masked amount never carries a sign |
| MonetaryMask.RemoveMaskOfFormat | src/utils/maskMonetary.ts:18-25 | round trip: below R$ 1.000.000,00 removing the mask of n cents gives exactly n/100 |
| MonetaryMask.RemoveMaskOfMask | src/utils/maskMonetary.ts:1-25 | for any typed text, unmasking its mask gives its cents/100 below 10^8 cents, and NaN from there on |
| MonetaryMask.RemoveMaskOfLargeFormat | src/utils/maskMonetary.ts:18-25 | from R$ 1.000.000,00 on, two thousands separators defeat the pattern and the result is NaN |
| MonetaryMask.RemoveMaskOfSingleSeparator | src/utils/maskMonetary.ts:18-25 | after the symbol, digits, one `.` or `,` and digits are read as a decimal fraction, whichever separator it is |
| MonetaryMask.RemoveMaskOfDanglingSeparator | src/utils/maskMonetary.ts:18-25 | a separator with no digits after it puts `undefined` into the rebuilt string, and the result is NaN |
| MonetaryMask.RemoveMaskOfDigits | src/utils/maskMonetary.ts:18-25 | plain digits do not match and reach `Number` unchanged; the empty string is 0 |
| Pagination.RequestPage | src/components/Pagination.tsx:16-20 | a page is forwarded iff it lies in 1..totalPages, and it is forwarded unchanged |
| Pagination.NoPagesNoChange | src/components/Pagination.tsx:16-20 | with no pages no change is ever forwarded |
| Pagination.ForwardedIffButton | src/components/Pagination.tsx:16-39 | a page is forwarded iff it has a button |
| Pagination.StartResult | src/components/Pagination.tsx:23 | `(currentPage - 1) * 20 + 1`; stated by RangeBounds and RangeCountsPage |
| Pagination.EndResult | src/components/Pagination.tsx:24 | `Math.min(currentPage * 20, totalResults)`; stated by RangeBounds and RangeCountsPage |
| Pagination.RangeBounds | src/components/Pagination.tsx:22-24 | the range shown never passes the total and never spans more than 20 |
| Pagination.RangeCountsPage | src/components/Pagination.tsx:22-24 | on a page holding products, the range counts exactly that page's products |
| Pagination.PageButtons | src/components/Pagination.tsx:26-30 | the buttons are 1..totalPages, in order, and none when there are no pages |
| Pagination.RenderPageNumbers | src/components/Pagination.tsx:26-30 | the `for` loop pushes exactly PageButtons(totalPages) |
| Pagination.ButtonsAreThePages | src/components/Pagination.tsx:26-30 | a number has a button iff it is a page |
| Pagination.ButtonsAscend | src/components/Pagination.tsx:26-30 | the buttons ascend strictly |
| Pagination.Highlighted | src/components/Pagination.tsx:34 | a button is highlighted when its number is the current page; stated by OneHighlighted |
| Pagination.OneHighlighted | src/components/Pagination.tsx:31-34 | at most one button is highlighted, and one is iff the current page is a page |
| Pagination.ButtonClickForwarded | src/components/Pagination.tsx:35 | clicking button k always forwards page k + 1 |
| Pagination.PrevDisabled | src/components/Pagination.tsx:47 | "Anterior" is disabled exactly on page 1; stated by PrevClick and PrevNextInRange |
| Pagination.NextDisabled | src/components/Pagination.tsx:55 | "Próxima" is disabled exactly when the current page equals totalPages; stated by NextClick, PrevNextInRange and EnabledNextRejected |
| Pagination.PrevClick | src/components/Pagination.tsx:45-47 | "Anterior" forwards only when enabled, and then the page before |
| Pagination.NextClick | src/components/Pagination.tsx:53-55 | "Próxima" forwards only when enabled, and then the page after |
| Pagination.PrevNextInRange | src/components/Pagination.tsx:45-55 | within the pages, previous exists iff not on the first page and next iff not on the last, and both land on buttons |
| Pagination.EnabledNextRejected | src/components/Pagination.tsx:53-55 | with no results "Próxima" is enabled, yet the guard drops its click |
| ProductList.QueryParams | src/pages/ProductList.tsx:25-28 | the query always starts with `page` |
| ProductList.Render | src/pages/ProductList.tsx:25-28 | parameters as `k=v` fields joined by `&`; ParseRender inverts it and RenderSnoc shows one more parameter appends `&` and its field |
| ProductList.ProductsUrl | src/pages/ProductList.tsx:25-28 | the API URL, `/products?` and the rendered query; BuildUrl's appends are proved equal to it, and QueryMeaning, UnfilteredUrl and ShirtUrl state what it holds |
| ProductList.ParseRender | src/pages/ProductList.tsx:25-28 | splitting the rendered query at `&` and `=` gives back the parameters, when no value holds `&` |
| ProductList.QueryMeaning | src/pages/ProductList.tsx:25-28 | split back at `&` and `=`, the query has the page first, `search` iff the name is non-empty, `is_active` iff status is not "all" (1 for "true", else 0), and `sales_location` iff the location is not "all" |
| ProductList.UnfilteredUrl | src/pages/ProductList.tsx:25-28 | with no filter the URL holds the page alone |
| ProductList.ShirtUrl | src/pages/ProductList.tsx:25-28 | name "shirt", status "true", location "store" on page 2 give `page=2&search=shirt&is_active=1&sales_location=store` |
| ProductList.NameFragmentHidesFilter | src/pages/ProductList.tsx:26-27 | the unencoded name `a#b` with status "true" puts `is_active=1` after a `#`, in the URL's fragment |
| ProductList.NameCarriesFilter | src/pages/ProductList.tsx:26 | the unencoded name `a&is_active=1` requests the same URL as name `a` with status "true" |
| ProductList.ValueCarriesParam | src/pages/ProductList.tsx:26-28 | a value holding `&k=v` renders exactly as a second parameter |
| ProductList.ListPage.constructor | src/pages/ProductList.tsx:12-20 | the mounted state: filters "all"/""/"all", page 1, no pages, no products, not loading |
| ProductList.ListPage.BuildUrl | src/pages/ProductList.tsx:25-28 | the appended URL equals the rendering of QueryParams |
| ProductList.ListPage.BeginFetch | src/pages/ProductList.tsx:22-30 | loading starts and exactly one request, for the current filters, goes out; nothing else changes |
| ProductList.ListPage.SettleFetch | src/pages/ProductList.tsx:31-40 | a body replaces the products and the three pagination numbers; a failure leaves them and adds one notification; loading ends either way |
| ProductList.ListPage.FetchProducts | src/pages/ProductList.tsx:22-41 | both halves together: one request, then the outcome as above |
| ProductList.ListPage.Mount | src/pages/ProductList.tsx:64-66 | mounting fetches the current page |
| ProductList.ListPage.ProductNameChanged | src/pages/ProductList.tsx:43-45 | only the name filter changes |
| ProductList.ListPage.StatusChanged | src/pages/ProductList.tsx:47-49 | only the status filter changes |
| ProductList.ListPage.LocationChanged | src/pages/ProductList.tsx:56-58 | only the location filter changes |
| ProductList.ListPage.ToggleFilters | src/pages/ProductList.tsx:60-62 | only the visibility of the filters flips |
| ProductList.ListPage.FilterSubmit | src/pages/ProductList.tsx:51-54 | page 1 is requested with the current filters; the current page is left as it is |
| ProductList.ListPage.SetCurrentPage | src/pages/ProductList.tsx:64-66 | a different page is stored and fetched; the same page changes nothing |
| ProductList.ListPage.PageChange | src/pages/ProductList.tsx:120-125 | a page inside the range becomes current; it is fetched, with loading on, iff it differs from the current page; the current page again or a page outside the range issues no request and leaves loading as it was |
| ProductForm.Present | src/pages/ProductCreatePage.tsx:10 | `string().required()`: the empty string fails |
| ProductForm.PriceValid | src/pages/ProductCreatePage.tsx:11-19 | the price test: the unmasked value is a number and at least 1; stated by PriceValidOfMask, PriceValidOfFormat, ZeroPriceInvalid and ValidPriceIsPositive |
| ProductForm.EanValid | src/pages/ProductCreatePage.tsx:20-23 | `length(13)`, `matches(/^\d+$/)` and `required()` together; stated by EanValidIff |
| ProductForm.EanValidIff | src/pages/ProductCreatePage.tsx:20-23 | an EAN passes iff it is exactly thirteen digits |
| ProductForm.PriceValidOfMask | src/pages/ProductCreatePage.tsx:11-19 | a masked price passes iff its digits denote R$ 1,00 up to R$ 999.999,99 |
| ProductForm.PriceValidOfFormat | src/pages/ProductCreatePage.tsx:11-19 | a formatted amount passes iff it is 100 to 99999999 cents |
| ProductForm.ZeroPriceInvalid | src/pages/ProductCreatePage.tsx:11-19 | the mask of "0" does not pass |
| ProductForm.ValidPriceIsPositive | src/pages/ProductCreatePage.tsx:11-19 | a price that passes unmasks to a non-negative number: exactly its cents/100 |
| ProductForm.EanCheck.Blocks | src/pages/ProductCreatePage.tsx:217 | the EAN flags disable submission while a check runs or an error is shown; stated by EanCheck.Settled |
| ProductForm.EanCheck.constructor | src/pages/ProductCreatePage.tsx:32-33 | no error and no check running |
| ProductForm.EanCheck.Edited | src/pages/ProductCreatePage.tsx:127-134 | every edit clears the error; the check starts iff the value has 13 characters |
| ProductForm.EanCheck.Settled | src/pages/ProductCreatePage.tsx:35-45 | the error is the "already registered" message iff the check threw, and the check is over |
| ProductCreate.InitialValues | src/pages/ProductCreatePage.tsx:94-101 | empty texts, no image, location "event", and a masked price |
| ProductCreate.InitialPriceIsMaskOfZero | src/pages/ProductCreatePage.tsx:97 | the initial price is `monetaryMask('0')`, i.e. zero cents formatted |
| ProductCreate.InitialValuesInvalid | src/pages/ProductCreatePage.tsx:9-27 | an untouched form fails the schema: its price is zero |
| ProductCreate.CreateValid | src/pages/ProductCreatePage.tsx:9-27 | the whole schema: name, price test, EAN, description, image and sales location; stated by InitialValuesInvalid and PayloadOfValid |
| ProductCreate.PayloadOf | src/pages/ProductCreatePage.tsx:63-67 | the posted body: the values with the price unmasked and the uploaded path; stated by PayloadOfValid |
| ProductCreate.PayloadOfValid | src/pages/ProductCreatePage.tsx:63-67 | a form that passes posts exactly the cents typed, 1 to 999999.99, non-negative, and a thirteen-digit EAN |
| ProductCreate.PayloadFor | src/pages/ProductCreatePage.tsx:61-67 | a payload exists iff the upload returned a path, and it carries that path |
| ProductCreate.CreatePage.constructor | src/pages/ProductCreatePage.tsx:31-33 | the form opens with InitialValues, not loading, no EAN flags |
| ProductCreate.CreatePage.SubmitDisabled | src/pages/ProductCreatePage.tsx:217 | disabled while loading, while the EAN check runs or while its error is shown; stated by StartSubmit and EanCheckSettled |
| ProductCreate.CreatePage.EanChanged | src/pages/ProductCreatePage.tsx:127-134 | the EAN is stored, the error is cleared, and the check starts iff it has 13 characters |
| ProductCreate.CreatePage.EanCheckSettled | src/pages/ProductCreatePage.tsx:35-45 | submission is blocked afterwards iff loading or the check threw |
| ProductCreate.CreatePage.PriceChanged | src/pages/ProductCreatePage.tsx:150-152 | the field holds the mask of what was typed |
| ProductCreate.CreatePage.FieldsChanged | src/pages/ProductCreatePage.tsx:107-209 | only the edited fields change |
| ProductCreate.CreatePage.StartSubmit | src/pages/ProductCreatePage.tsx:58-59 | submission starts iff the button is enabled and the schema passes, and loading then begins |
| ProductCreate.CreatePage.FinishSubmit | src/pages/ProductCreatePage.tsx:58-86 | a failed upload only adds an error; otherwise the payload is posted and only an ok answer leads home; loading ends |
| ProductCreate.CreatePage.Post | src/pages/ProductCreatePage.tsx:69-85 | the same, once the payload is built |
| ProductEdit.InitialPriceAsWritten | src/pages/ProductEditPage.tsx:131 | the initial price as the page computes it has the masked shape |
| ProductEdit.AsWrittenReadsDigits | src/pages/ProductEditPage.tsx:131 | the page reads the price's significant digits, with the zeros of a whole number, as cents, and drops any sign |
| ProductEdit.AsWrittenRightIff | src/pages/ProductEditPage.tsx:131 | for prices with at most two decimals, the page shows the right amount iff the price has exactly two significant decimals |
| ProductEdit.ReadDigitsIff | src/pages/ProductEditPage.tsx:131 | for at most two decimals, reading the significant digits as cents gives the true cents iff exactly two significant decimals remain |
| ProductEdit.AsWrittenTwelveFifty | src/pages/ProductEditPage.tsx:131 | 12.5 shows as R$ 1,25 and an untouched submit sends 1.25 |
| ProductEdit.AsWrittenOneFifty | src/pages/ProductEditPage.tsx:131 | 150 shows as R$ 1,50 and an untouched submit sends 1.5 |
| ProductEdit.InitialPrice | src/pages/ProductEditPage.tsx:131 | the corrected initial price: the product's price in cents, formatted |
| ProductEdit.InitialPriceRoundTrip | src/pages/ProductEditPage.tsx:131 | the corrected initial price unmasks to the product's own price, below R$ 1.000.000,00 with at most two decimals |
| ProductEdit.InitialEditValues | src/pages/ProductEditPage.tsx:127-136 | as written, the form opens with the product's fields, no new image and the mask of the price's string form |
| ProductEdit.InitialEditValuesValidIff | src/pages/ProductEditPage.tsx:10-27 | as written, the untouched form of a product with sound fields passes the schema iff the price's significant digits, read as cents, make R$ 1,00 to R$ 999.999,99 |
| ProductEdit.AsWrittenFiveFailsSchema | src/pages/ProductEditPage.tsx:131 | as written, a sound product priced 5 opens at R$ 0,05 and its untouched form fails the schema |
| ProductEdit.InitialEditValuesCorrected | src/pages/ProductEditPage.tsx:127-136 | corrected: the same values with the price's own cents formatted |
| ProductEdit.EditValid | src/pages/ProductEditPage.tsx:10-27 | the create schema without the image; stated by InitialEditValuesValidIff, AsWrittenFiveFailsSchema and CorrectedEditValuesValid |
| ProductEdit.CorrectedEditValuesValid | src/pages/ProductEditPage.tsx:10-27 | corrected: the untouched form of a product with sound fields and a price of 1 to 999999.99 with at most two decimals passes the schema, which requires no image |
| ProductEdit.EditPayloadOf | src/pages/ProductEditPage.tsx:88-97 | price unmasked; `ean` present iff changed; `active` always the product's; the given image path |
| ProductEdit.ImagePath | src/pages/ProductEditPage.tsx:87 | the upload's path when a new image was chosen, the product's own otherwise; stated by PayloadFor |
| ProductEdit.PayloadFor | src/pages/ProductEditPage.tsx:87-97 | a payload exists iff no new image was chosen or its upload returned; without a new image it carries the product's own image path, with one the uploaded path |
| ProductEdit.AsWrittenSubmittedPrice | src/pages/ProductEditPage.tsx:90-131 | as written, the untouched price is sent back as its significant digits read as cents |
| ProductEdit.UntouchedSubmitPriceIff | src/pages/ProductEditPage.tsx:85-131 | as written, an untouched submit sends the product's own price back iff the price has exactly two significant decimals |
| ProductEdit.CorrectedSubmitKeepsProduct | src/pages/ProductEditPage.tsx:85-97 | corrected: submitting the untouched form without a new image sends back the product as it was: no EAN, the same price value, image, status and texts |
| ProductEdit.PayloadIgnoresFormActive | src/pages/ProductEditPage.tsx:88-93 | the form's own `active` never reaches the payload |
| ProductEdit.WithActive | src/pages/ProductEditPage.tsx:78-83 | `active` becomes whether the radio's value is "true", and nothing else changes |
| ProductEdit.StatusRadios | src/pages/ProductEditPage.tsx:250-270 | each status radio sets its own status, and clicking it again changes nothing |
| ProductEdit.EditPage.constructor | src/pages/ProductEditPage.tsx:32-35 | no product, no form, not loading, no EAN flags |
| ProductEdit.EditPage.SubmitDisabled | src/pages/ProductEditPage.tsx:281 | since nothing sets loading, the button is disabled exactly by the EAN flags |
| ProductEdit.EditPage.Loaded | src/pages/ProductEditPage.tsx:37-51 | a fetched product is kept and, the first time, opens the form with its values as written (`InitialEditValues`); a failure adds one notification |
| ProductEdit.EditPage.Show | src/pages/ProductEditPage.tsx:118-136 | the product is kept; the form is created only once |
| ProductEdit.EditPage.ActiveChanged | src/pages/ProductEditPage.tsx:78-83 | only the product's `active` changes; the form does not |
| ProductEdit.EditPage.EanChanged | src/pages/ProductEditPage.tsx:162-169 | the EAN is stored, the error is cleared, and the check starts iff it has 13 characters |
| ProductEdit.EditPage.EanCheckSettled | src/pages/ProductEditPage.tsx:53-63 | submission is blocked afterwards iff the check threw |
| ProductEdit.EditPage.PriceChanged | src/pages/ProductEditPage.tsx:184-187 | the field holds the mask of what was typed |
| ProductEdit.EditPage.FieldsChanged | src/pages/ProductEditPage.tsx:142-230 | only the edited fields change |
| ProductEdit.EditPage.Submit | src/pages/ProductEditPage.tsx:85-116 | submission happens iff the button is enabled and the schema passes; it then sends PayloadFor of the form |
| ProductEdit.EditPage.Send | src/pages/ProductEditPage.tsx:99-115 | a failed upload only adds an error; otherwise the payload is sent and only an ok answer leads home |

## Left out

- Floating point. Prices are exact decimals, so IEEE-754 rounding, `parseFloat` beyond 2^53, `value / 100` in binary and `Intl` rounding are not modelled. Neither are exponent forms of `String(number)` (below 10^-6 or from 10^21 on).
- `Intl.NumberFormat` is modelled only for non-negative amounts in pt-BR BRL. The mask never yields a sign, so no other case arises.
- String lengths are counted in characters, not UTF-16 code units. The `maxLength={13}` attribute of the EAN input is not modelled.
- HTTP, `fetch`, `response.json()`, the toasts' texts, `navigate`, the `ToastContainer` and every rendering detail are left out. Outcomes are parameters; notifications are counted; navigation is a flag.
- Concurrency: overlapping requests and last-response-wins are not modelled. Each request is modelled with its answer arriving before any other event (`ProductList.ListPage.FetchProducts`). The list page's second fetch is not modelled: a page change fetches from the pagination handler's effect, and a response that changes `currentPage` triggers the effect once more.
- `response.ok` is not checked after the list and product fetches. A non-2xx body is treated like any other body.
- The `image` key that the spread of `values` leaves in the create and edit payloads is not modelled; the file object is not JSON.
- `validateEAN` is a call into code outside this model. Only whether it threw is modelled.
- `handleImageUpload` is modelled by its outcome: a path, or `None` when it threw. The edit page's early `return ''` is never reached, because it is only called with a file.
- ProductEdit.Cents: for prices with more than two decimals the cents are rounded half up. The source never decides this case, because its as-written mask does not round at all.
- ProductEdit.AsWrittenReadsDigits: stated only for prices that `String(number)` prints without an exponent (`JsNumber.PlainDecimal`).
- ProductEdit.EditPage.ActiveChanged: requires a fetched product, since the radios are rendered only once one is there.
- Percent-decoding, the decoding of `+` and the fragment are not modelled. The query is split back as plain text. A `#` in the name or the location cuts the query there, because `fetch` does not send the fragment (`ProductList.NameFragmentHidesFilter`). `ProductList.QueryMeaning` therefore describes the query text, not what a server receives for such names.
- ProductEdit.InitialEditValuesValidIff, ProductEdit.UntouchedSubmitPriceIff: stated for positive prices that `String(number)` prints without an exponent. A zero price has no significant digits.
- ProductList.ParseRender: stated only for parameters whose key holds neither `=` nor `&` and whose value holds no `&`. The source does not encode, and `ProductList.NameCarriesFilter` shows what happens otherwise.
- The search, filter-form, product-card and grid components and the routes are presentation only and are not part of this model.

## Findings

| source | as written | input that shows it | evidently intended | confidence | as-written member | corrected member |
|---|---|---|---|---|---|---|
| src/pages/ProductEditPage.tsx:131 | the initial price is `monetaryMask(productData.price)`. It keeps the digits of `String(price)` and reads them as cents, so the position of the decimal point is lost | a price of 12.5 shows as R$ 1,25, and 150 shows as R$ 1,50. Submitting either unchanged sends 1.25 or 1.5 | the price's own amount, R$ 12,50 and R$ 150,00, which unmasks back to the product's price | not executed | ProductEdit.AsWrittenTwelveFifty | ProductEdit.InitialPriceRoundTrip |
| src/pages/ProductEditPage.tsx:131 | the same misreading can push a sound price below the schema's minimum | a product priced 5 opens at R$ 0,05, and its untouched form fails the price test, so the product cannot be saved without retyping the price | the form opens at R$ 5,00 and passes | not executed | ProductEdit.AsWrittenFiveFailsSchema | ProductEdit.CorrectedEditValuesValid |
