# Reddit search widget: a Dafny model of its string logic

The widget reads a search term, a sort order and a result limit from a form. It
warns when the term is empty and sends the request anyway. It then turns each
returned post into a Bootstrap card and writes all the cards into the results
container in one assignment. This project models the pure parts of that flow
as Dafny functions and methods and proves what they do:

- `truncateText(text, limit)` keeps the text up to, but not including, the first
  space at or after position `limit` (module `Truncate`). It is built on a model
  of `String.prototype.indexOf` for a one-character search string (module
  `Strings`).
- The `.then` handler of the submit listener folds the posts into one HTML
  string (module `Render`). The HTML starts with the `card-columns` container.
  Each post adds one card with these parts in the template's holes:
  - the image URL, or a fixed placeholder when the post has no preview;
  - the title;
  - the body text, truncated at 100;
  - the link;
  - the subreddit;
  - the score.
  The HTML ends with `</div>`.
- `search(term, limit, sortBy)` builds the request URL with no percent-encoding.
  It maps `data.data.children` onto their `data` payloads, and it turns every
  failure into `undefined` (module `Fetcher`). The network is a function
  parameter from URL to outcome.
- The submit listener puts these steps together (module `Submit`).

Some error cases throw at run time in the program. They are modelled as values:
- `Failure(PreviewWithoutImages(i))`: the first post whose `preview` has an empty
  `images` list, since `images[0].source` throws there and `forEach` stops.
- `Failure(ResultsUndefined)`: a failed search resolves to `undefined`, and
  `results.forEach` throws on it inside the `.then` callback. That happens after
  the submit listener has already returned. This is the latent defect of the
  failure-masking promise.

Strings are `seq<char>`. A post is a `Post` datatype with an `Option<Preview>`.
A response is `Response(Listing(seq<Child>))`.

Modules: `Wrappers` (Option, Result), `Strings`, `Decimal` (how a template
literal prints the score), `Truncate`, `Posts`, `Render`, `Fetcher`, `Submit`.

Only `' '` is a cut point for truncation. Tabs and line breaks are not
(`Truncate.TruncateExamples`).

## Model

| member | source | states |
|---|---|---|
| `Strings.IndexOf` | index.js:110 | `indexOf(' ', limit)` returns -1 exactly when no space sits at or after `limit`, which includes every `limit >= length`. Otherwise it returns the least such index. |
| `Truncate.TruncateText` | index.js:109-113 | The result is a prefix of the text. It is the whole text exactly when there is no space at or after `limit`, which covers the empty text and `length <= limit`. Otherwise the text is cut right before the first such space. The result never has a space at or after `limit`. |
| `Truncate.TruncateTextIsTruncation` | index.js:109-113 | The result equals an independent description of the truncation (kept whole, or cut at the unique first space at or after `limit`), and no other string matches that description. |
| `Truncate.TruncateIdempotent` | index.js:109-113 | Truncating an already truncated text with the same limit changes nothing. |
| `Truncate.TruncatedKeepsLimit` | index.js:106-112 | When the text is actually shortened, the result is at least `limit` long and strictly shorter than the text, so `limit` is a minimum length, as the doc comment says. |
| `Truncate.TruncateExamples` | index.js:109-113 | Worked cases: `"hello world foo"` at 5 gives `"hello"`; `"short"` at 100 and `""` at 10 come back unchanged; a tab is not a cut point. |
| `Decimal.IntToString` | index.js:64 | The printed score is non-empty. It starts with `-` exactly for a negative score, followed by decimal digits with no leading zero, except for the single digit `0`. |
| `Decimal.IntRoundTrip` | index.js:64 | The score's decimal rendering (minus sign, digits, no leading zero) reads back as the same integer. |
| `Render.ImageUrl` | index.js:52-54 | The placeholder URL when the post has no preview. Otherwise the first preview image's source URL. Reading it fails (the TypeError) exactly when the preview has no images. |
| `Render.Card` | index.js:55-67 | A card is the literal template with exactly six holes. They are filled in order with image, title, truncated text, link, subreddit and score. |
| `Render.CardShowsFields` | index.js:57-64 | Each card contains verbatim, with no escaping: the image URL, the title, `truncateText(selftext, 100)`, the link, the subreddit and the printed score. The printed score denotes the post's score. |
| `Render.Cards` | index.js:51-68 | The `forEach` accumulation (the cards of all posts but the last, then the last post's card) equals the per-post card fragments, one per post in input order, glued together. |
| `Render.CardsInOrder` | index.js:51-68 | Exactly one card fragment per post, in input order. The cards for a post list are the cards of the posts before post `i`, then post `i`'s card, then the rest. |
| `Render.RenderResults` | index.js:48-70 | `undefined` results fail with `ResultsUndefined`. Rendering succeeds exactly when every post's image can be read, and the output is then the opening `card-columns` div, the cards of all posts, and `</div>`. Otherwise it fails at the first post whose preview has no image. |
| `Render.RenderedIsFramed` | index.js:50-69 | The rendered page starts with `<div class="card-columns">` and ends with `</div>`. |
| `Fetcher.Project` | index.js:128 | `children.map(d => d.data)`: as many posts as children, and post `i` is child `i`'s `data`. |
| `Fetcher.Unwrap` | index.js:128 | `data.data.children.map(...)` on a whole response: as many posts as the response's children, and post `i` is child `i`'s `data`. |
| `Fetcher.UnwrapRoundTrip` | index.js:128 | Unwrapping a response built from posts gives back those posts. Rebuilding a response from its unwrapped posts gives back the response. |
| `Fetcher.SearchUrl` | index.js:124 | The URL is the endpoint, `?`, and the pairs `q=term`, `sort=sortBy`, `limit=limit`, joined by `&`, with every value inserted verbatim. |
| `Fetcher.SearchUrlRoundTrip` | index.js:124 | When no value contains `&`, a server splitting the query at `&` and `=` reads back exactly `q=term`, `sort=sortBy` and `limit=limit`, in that order. |
| `Fetcher.AmpersandInTermSplitsIt` | index.js:124 | Because nothing is encoded, a term `a&b` is read as `q=a` followed by an extra parameter `b`, ahead of the real sort and limit. |
| `Fetcher.Search` | index.js:122-130 | The promise resolves to no value (`undefined`) exactly when the request to the built URL fails. Otherwise it resolves to the unwrapped posts of the response. |
| `Fetcher.EmptyIsNotFailure` | index.js:126-130 | A successful response with no children gives an empty list, not `undefined`. |
| `Submit.MessageElement` | index.js:81-87 | The alert element carries the given message, and its class is `alert ` followed by the given class name. |
| `Submit.Prepare` | index.js:22-47 | An alert with "Please input a search term" and class `alert alert-danger` appears exactly when the term is empty. The request URL is built from the raw form values in every case. |
| `Submit.EmptyTermStillSearches` | index.js:37-47 | An empty term is warned about and still sent, as `q=` with the chosen sort and limit. |
| `Submit.HandleSubmit` | index.js:16-74 | One submission: an alert exactly for an empty term. When the request fails, the later `.then` callback throws on `undefined` (`ResultsUndefined`), an unhandled rejection; the listener itself returns normally. Otherwise the page is the framed cards of the unwrapped posts, or a failure when some preview has no image. |

## Left out

- DOM lookups and writes are left out because they are browser side effects with no logic: reading the form controls, clearing the input field, inserting the alert, assigning `innerHTML`, and `e.preventDefault()`. The model returns the alert and the HTML string instead.
- The 2-second `setTimeout` that removes the alert is left out because it is a timer with no logic.
- `fetch`, `res.json()`, promise chaining and `console.log` are not modelled. The network is a function parameter from URL to `FetchOutcome`, and every failure (network, JSON, shape) is one `Failed` outcome.
- JSON parsing is not modelled; the parsed response shape is a datatype that always carries every field. A missing `title`, `url`, `subreddit` or `score` would print as `undefined` in JavaScript. A missing `selftext` would make `truncateText(undefined, 100)` throw a TypeError at `text.indexOf`. Neither case is represented.
- `Render.ImageUrl`: JavaScript tests `post.preview` for truthiness. The model treats only an absent preview as falsy, so a `null` or other falsy `preview` value is not represented.
- Overlapping submissions racing to write the results container are left out, because this is concurrency.
- `Strings.IndexOf`: JavaScript counts string positions in UTF-16 code units. The model counts `char`s, which are Unicode scalar values. Texts with characters outside the Basic Multilingual Plane can therefore be cut at a different position.
- `Strings.IndexOf`: `limit` is a `nat`. JavaScript clamps a negative or fractional position first; the widget always passes 100.
- `Decimal.IntRoundTrip`: only integer scores are modelled. JavaScript prints very large numbers (1e21 and up) in exponent notation, and non-integers with a fraction.
- `Fetcher.SearchUrlRoundTrip`: the query parser used as the inverse splits at `&` and `=` only. It does not percent-decode, treat `+` as a space, or cut off a `#` fragment.
