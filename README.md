# fetch_reviews: a verified model of the Google Maps review scraper

`data-extraction/fetch_reviews.js` builds a CSV file of places and their reviews. It works country by country:

1. It makes a paginated Places text search for restaurants, then one for cafes, in the country's capital.
2. It merges the two result lists, restaurants first.
3. For every fourth place of the merged list, counted from 1, it fetches the Place Details reviews.
4. It appends one quoted, sanitised nine-column line per place to the output file.
5. An API call counter grows along the way.
6. A `try`/`catch` around each country confines an error to that country.

This project models that core in Dafny and proves properties of the model. It has five modules:

- `JsValues` (`js_values.dfy`): the JavaScript values the program reads from a parsed response. A field is `undefined`, `null` or text. The module also gives `== undefined` (loose equality) and string conversion.
- `Csv` (`csv.dfy`):
  - `cleanReviewText`, as two chained one-character-for-one-character replacements, and `clean_n_quote`;
  - the nine-field line built in `main`;
  - a small parser for that line shape, used to state the round trip.
- `Places` (`places.dfy`): the `getPlaces` loop.
  - `GetPlaces` is an imperative method. It has the accumulator, the request cursor, the three-round bound and the early `break`.
  - The method is proved equal to the function `Search`, which is defined through a recursive walk over the replies.
- `PlaceDetails` (`details.dfy`): the response check of `getReviews`.
- `Driver` (`driver.dfy`): `main`.
  - Methods: `FetchAll` (the country loop), `ProcessCountry` (the `try` block), `ProcessPlaces` (the place loop), `ProcessPlace` (its body) and `AggregateReviews` (the review loop).
  - Each method is proved against a specification function (`Pipeline`, `CountryRun`, `PlacesFrom`, `PlaceStep`, `ReviewText`).
  - The properties are proved about those functions.

## How the environment is modelled

- **HTTP and parsing.** The HTTP request together with `JSON.parse` is an oracle:
  - `search: Request -> Reply<Page>` for the text search;
  - `details: JsValue -> Reply<DetailsBody>` for the details call.

  `Failed` stands for every way the call or the parse throws.
- **Text search requests.** A request is either the first text search (query and place type) or a page-token request.
- **Sleep.** The two-second `sleep` between rounds is a ghost count of waits.
- **Output file.** The file is the sequence of lines appended to it, the header first, threaded through the methods as `sink`.
- **Inputs.** The country list is a parameter.

### JavaScript behaviour modelled as outcomes

- **Restaurant search returns `false`.** Then `restaurants_arr.concat` throws (fetch_reviews.js:271), so the country writes nothing.
- **Cafe search returns `false`.** `concat` appends the value `false` to the list. The restaurant rows are written. The loop then throws when it reads `false.geometry.location`.
- **Order of reads inside a place (fetch_reviews.js:286-343).**
  - `place.geometry.location` is read before the review fetch. A place without it throws, and its reviews are not fetched or counted.
  - `types_arr[0]` is read only when the line is built, after the fetch was counted. A place without `types` throws after the counter has grown.
  - An empty `types` list gives `undefined`, which becomes the empty field.
- **`getReviews` throws.** The counter is not incremented (fetch_reviews.js:314-316).
- **A page without `results`.** This makes `result_obj.results.length` throw (fetch_reviews.js:172). The error propagates out of `getPlaces`.
- **`Math.round(60/20)`.** It is written as a constant expression equal to 3.
- **The aggregated review text.** Each review is appended as `" " + text`, the first included, so the aggregate starts with a space. Two reviews `Great food` and `Loved it\n` become the field ` Great food Loved it `, with the leading space (`Driver.GreatFoodScenario`). A reading that treats the space only as a separator between reviews would drop that first space.

## Model

| member | source | states |
|---|---|---|
| Csv.ReplaceQuotes | data-extraction/fetch_reviews.js:32 | every `"` becomes `'`, every other character stays in place, and the length is kept |
| Csv.ReplaceLineBreaks | data-extraction/fetch_reviews.js:32 | every `\n` and `\r` becomes one space, every other character stays in place, and the length is kept |
| Csv.CleanText | data-extraction/fetch_reviews.js:32 | the chained replacements keep the length, change each character by the per-character rule, and leave no `"`, `\n` or `\r` |
| Csv.CleanReviewText | data-extraction/fetch_reviews.js:29-33 | undefined or null gives `""`; text keeps its length; the result is always sanitised |
| Csv.CleanTextFixesSanitised | data-extraction/fetch_reviews.js:32 | text without quotes or line breaks is returned unchanged |
| Csv.CleanTextIdempotent | data-extraction/fetch_reviews.js:32 | cleaning twice equals cleaning once |
| Csv.CleanReviewTextIdempotent | data-extraction/fetch_reviews.js:29-33 | `cleanReviewText` applied to its own output gives that output back |
| Csv.CleanTextAppend | data-extraction/fetch_reviews.js:32 | cleaning distributes over concatenation |
| Csv.CleanAndQuoteShape | data-extraction/fetch_reviews.js:22-24 | the quoted field is `"`, the cleaned text, `"`; its inner characters hold no quote or line break |
| Csv.CleanedFields | data-extraction/fetch_reviews.js:341-343 | a row has nine cleaned fields, each sanitised |
| Csv.CsvLineIsQuotedJoin | data-extraction/fetch_reviews.js:341-343 | the literal nine-part line is the nine quoted cleaned fields joined by commas and ended by `\n` |
| Csv.CsvRoundTrip | data-extraction/fetch_reviews.js:341-343 | splitting the line at its field boundaries and stripping the quotes gives back exactly the nine sanitised fields |
| Csv.QuotedJoinShape | data-extraction/fetch_reviews.js:341-343 | a join of sanitised fields holds two quotes per field and ends with a `\n` that is its only line break |
| Csv.CsvLineShape | data-extraction/fetch_reviews.js:341-343 | a CSV line holds 18 double quotes and one `\n`, which is its last character and its only line break |
| Places.GetPlaces | data-extraction/fetch_reviews.js:128-212 | the loop's outcome is `Search`; the requests it makes and the waits it does are those of the walk |
| Places.WalkShape | data-extraction/fetch_reviews.js:154-200 | at most `rounds` requests, the first being the initial request; one page per request that did not throw; at most one wait per request and at least one wait before each later request, exactly one fewer than the requests when the walk threw or stopped early |
| Places.WalkWaits | data-extraction/fetch_reviews.js:184-198 | the waits equal the requests exactly when the last reply read carried a token (a third reply with a token still costs a sleep before the loop ends); otherwise they are one fewer |
| Places.WalkFollowsTokens | data-extraction/fetch_reviews.js:166-195 | each page is the `results` of its own reply, in order; each later request is the page-token request built from the previous reply's token |
| Places.WalkStops | data-extraction/fetch_reviews.js:184-198 | the loop ends on the first reply that throws, on the first reply without a `next_page_token`, or when the rounds run out |
| Places.FlattenEmpty | data-extraction/fetch_reviews.js:205-210 | the accumulated list is empty exactly when every page was empty |
| Places.SearchContract | data-extraction/fetch_reviews.js:128-212 | 1 to 3 requests starting with the text search; throws exactly when the walk threw; returns `false` exactly when no page held a place; otherwise returns the in-order concatenation of the pages |
| Places.TwoPagesScenario | data-extraction/fetch_reviews.js:154-200 | two pages of 20 and no third token give 40 places, first page first, after exactly two requests |
| PlaceDetails.GetReviews | data-extraction/fetch_reviews.js:102-116 | throws exactly when the call or parse fails; returns the reviews exactly when `result` and `result.reviews` are defined, an empty list included, and returns them unchanged; otherwise returns `false` |
| Driver.MergeShape | data-extraction/fetch_reviews.js:271 | the merge fails (`false.concat` throws) exactly when the restaurant search did not return places; otherwise it is the restaurants in order, then the cafes in order, or the single `false` when the cafe search returned `false` |
| Driver.AggregateReviews | data-extraction/fetch_reviews.js:323-329 | the review loop's result is `ReviewText`: a space and the text of each review, in returned order |
| Driver.ReviewTextShape | data-extraction/fetch_reviews.js:319-329 | the aggregate is empty exactly when there are no reviews; otherwise it starts with a space; its length is one per review plus the texts' lengths |
| Driver.CleanOnce | data-extraction/fetch_reviews.js:327-343 | cleaning the aggregate once, as a whole, at row build equals cleaning each review's text on its own |
| Driver.TwoReviewsScenario | data-extraction/fetch_reviews.js:323-343 | two sanitised review texts `first` and `second + "\n"` aggregate to `" " + first + " " + second + "\n"`, whose cleaned field is `" " + first + " " + second + " "` |
| Driver.GreatFoodScenario | data-extraction/fetch_reviews.js:323-343 | `Great food` and `Loved it\n` give the field ` Great food Loved it ` |
| Driver.ProcessPlace | data-extraction/fetch_reviews.js:283-343 | the loop body's result is `PlaceStep` |
| Driver.PlaceStepCalls | data-extraction/fetch_reviews.js:297-316 | at most one counted fetch per place; one exactly when the item is a place with a location, at a position divisible by 4, whose fetch did not throw; an unsampled place does not depend on the details service |
| Driver.UnreadablePlaceThrows | data-extraction/fetch_reviews.js:286-291 | the appended `false` and a place whose `geometry.location` cannot be read (`HasLocation` false) throw before any fetch: no row and no count |
| Driver.BuildRowLine | data-extraction/fetch_reviews.js:292-343 | building the line throws at `types_arr[0]` exactly when `types` is missing; otherwise the line reads back as the nine cleaned values in header order, with the first type (or the empty field for an empty list) and the aggregate last |
| Driver.EmittedRow | data-extraction/fetch_reviews.js:284-343 | an emitted row holds the country's three values and the place's fields, the first type or `undefined` for an empty list, and the aggregate text (empty when unsampled or when `getReviews` returned `false`) |
| Driver.EmittedCalls | data-extraction/fetch_reviews.js:297-316 | a place that emits a row counted one fetch exactly when its position is divisible by 4 |
| Driver.SampledCountFormula | data-extraction/fetch_reviews.js:297 | the positions divisible by 4 among `lo`..`lo+n-1` number `(lo+n-1)/4 - (lo-1)/4` |
| Driver.FetchesPerList | data-extraction/fetch_reviews.js:278-297 | of the first `n` positions, `n / 4` are sampled |
| Driver.ProcessPlaces | data-extraction/fetch_reviews.js:278-350 | the place loop appends the lines of `PlacesFrom`'s rows, adds its calls to the counter, and reports an error exactly when one was raised |
| Driver.PlacesFromStop | data-extraction/fetch_reviews.js:281-350 | at most one row per place is written; without an error, exactly one per place; with one, the error is raised by the place right after the last row written |
| Driver.PlacesFromRows | data-extraction/fetch_reviews.js:281-348 | row `j` is the row that the place at position `j+1` emitted, in list order |
| Driver.PlacesFromCalls | data-extraction/fetch_reviews.js:297-316 | without an error, the counter grows by the number of sampled positions; with one, by those among the rows written plus the failing place's own fetch |
| Driver.ProcessCountry | data-extraction/fetch_reviews.js:243-358 | one country appends the lines of `CountryRun`'s rows, adds its calls, and catches an error exactly when one was raised |
| Driver.CountryRunErrors | data-extraction/fetch_reviews.js:255-276 | a throwing restaurant search writes nothing and counts 0; a throwing cafe search writes nothing and counts 1; restaurants `false` writes nothing and counts 2; cafes `false` ends in an error after at most the restaurant rows |
| Driver.CountryRunComplete | data-extraction/fetch_reviews.js:259-316 | a country without error had both lists, wrote one row per place, and counted `2 + (restaurants + cafes) / 4` |
| Driver.CountryRunOrder | data-extraction/fetch_reviews.js:271-348 | rows come in merged order: restaurants first at positions 1.., then cafes, each row that of its own place; when the cafe search returned `false`, the rows written before the error are restaurant rows, in order |
| Driver.LinesAt | data-extraction/fetch_reviews.js:348 | line `i` appended is the CSV line of row `i` |
| Driver.FetchAll | data-extraction/fetch_reviews.js:217-370 | the file is the header then the lines of the rows of all countries in turn; the counter is the sum of the countries' calls |
| Driver.PipelineSplit | data-extraction/fetch_reviews.js:239-365 | the output is the earlier countries' rows, this country's rows, then the later countries' rows, whatever this country did; the counter sums the same way |
| Driver.PipelineGrows | data-extraction/fetch_reviews.js:239-365 | processing more countries only appends rows and never decreases the counter |

## Left out

- HTTP requests, the API key, URL building and `JSON.parse`: these are foreign calls, so they are the oracles `search` and `details`. A failure of either is `Failed`.
- `encodeURI` of the query (fetch_reviews.js:255): the query is kept unencoded. A `URIError` on a lone surrogate is not modelled.
- `sleep.sleep(2)`: only a delay; kept as a ghost count of waits.
- `fs.appendFile` (fetch_reviews.js:42-54): the file is the appended sequence of lines. The order in which Node completes the asynchronous appends, and write errors, are not modelled.
- `getCountriesList` and `fs.readFileSync` (fetch_reviews.js:61-70): file I/O; the country list is an input.
- `console.log` and `console.error`: logging only. The message the `catch` prints is not modelled.
- `toString()` formatting of the numeric rating and review count: those fields are kept as text, and float formatting is not modelled.
- Response values of unexpected JSON types (a `results`, `reviews` or `types` that is not an array, or a `null` element inside one): the model's response types have no room for them.
- The test `reviews_list !== 0` (fetch_reviews.js:319): `getReviews` never returns `0`, so the test is always true and has no counterpart.
- The services are stateless: `search` and `details` are functions of the request alone. The model therefore does not capture a reply that depends on earlier calls, on time or on quota. Examples are a page token that becomes valid only after the two-second delay, or a quota used up in one country that makes later countries fail. `Driver.PipelineSplit` holds only because of this.
- Driver.Query: the query text is kept only as its definition, a space, the capital, `", "` and the country name (fetch_reviews.js:255), because it only serves as input to the `search` oracle; no property is stated about it.
- Places.GetPlaces: the list's `.length != undefined` test at fetch_reviews.js:205 is always true for an array, so only the `> 0` test is modelled.
