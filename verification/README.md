# LayerLabs support chat endpoint — a Dafny model

This project models the deterministic core of the LayerLabs customer-support
chatbot server (`server.py`). A customer message is handled in four steps:

- **Classification.** The message is put into one of five intents, or any
  other tag the language model returns, which is handled like `fallback`. The
  intent comes from a language-model extraction when it answers with usable
  JSON, otherwise from the rule-based classifier. The rules are the lowered-message regexes for order
  words and product words, then the greeting substrings. For an order
  message, the number and the e-mail are pulled out with two more regexes.
- **Catalog queries.** Two Shopify GraphQL lookups: the product search and
  the order search. The order search builds its query as
  `name:<number>[ AND email:<email>]` and takes the first node.
- **Dispatch.** The intent picks the reply: a product summary, an order
  summary, a fixed greeting, or the language model's answer to the raw
  message.
- **Error mapping.** An empty message gives 400. A `requests.HTTPError`
  gives 502 with a `Shopify API error: ` prefix. Any other exception gives
  500.

Modules:

- `Common` — `Option`, the two exception kinds (`Failure`: `HttpError` or
  `OtherError`), and Python truthiness of an optional string.
- `Text` — ASCII character classes, `str.lower()`, and the substring test
  `in` against a declarative "occurs at some index".
- `Regex` — the regex building blocks:
  - `\b` as `Boundary`;
  - greedy runs of a character class as `RunLen`;
  - `re.search`'s leftmost scan as `FirstMatch`, generic in the anchored
    matcher it is given.
- `Classifier` — the three rule-based tests, order-number extraction,
  e-mail extraction, `RuleClassify` and `Classify`. Each regex is an
  anchored matcher at a position, proved equal to a declarative
  description:
  - a bounded token somewhere in the message;
  - the leftmost run of three digits, cut to ten;
  - the address around the first usable `@`.
- `Catalog` — `search_products_by_text` and `find_order` over an abstract
  outcome of the GraphQL call. Each key on the way to the node list can be
  absent, `null` or an object (a list for the node list itself). For those
  three cases the model follows the `.get(key, default)` chains:
  - a missing key falls back to the default;
  - a `null` raises a Python error, except a `null` order node list, which
    counts as no order.
- `ChatEndpoint` — `chat()`. The remote services (`Services`) are functions
  of what they are asked. Every `Response` carries the trace of remote calls
  made, so contracts can state which calls a path makes and in what order.
- `ClassifierFacts` — consequences for messages of a known shape, including
  the worked order example `Where is my order #12345, email a@b.com`.

Behaviour worth noting:

- Only `requests.HTTPError` maps to 502. A timeout, a connection error, a
  non-JSON body or a `null` `data`, `products`, `edges` or `orders` is some
  other exception, so it gives 500 (`Catalog.ProductNodes`,
  `Catalog.FirstOrder`, `ChatEndpoint.Chat`). A `null` order node list counts
  as no order (200, order not found), and a `null` order field is shown as
  `None` or as `Not fulfilled yet`.
- The product path makes up to three remote calls: extraction, product
  search and, only when products are found, reply composition
  (`ChatEndpoint.ProductBranch`; `ChatEndpoint.Chat` states at most three).
- `Do you have the blue hoodie?` contains none of the product words, so the
  rules classify it as `fallback` (`ClassifierFacts.HoodieIsFallback`).
- A bare `#` followed by digits (`#12345` on its own) does not satisfy the
  order pattern. `\b` before `#` needs a word character in front of it, so
  such a message falls through to `fallback`
  (`ClassifierFacts.BareHashNumberIsFallback`).

## Model

| member | source | states |
|---|---|---|
| Text.Lower | server.py:110 | the lowered message has the same length, each character is the ASCII lower-case of the original, and no upper-case letter is left |
| Text.Contains | server.py:118 | `t in s` holds exactly when `t` occurs in `s` at some index |
| Regex.RunLen | server.py:113-114 | a greedy quantifier's run: every character in it is in the class, and the character after it is not (or the text ends) |
| Regex.RunIsMaximal | server.py:113-114 | any run of class characters from a position is no longer than the greedy run there |
| Regex.RunLenExact | server.py:113 | a class run that stops at a non-class character or at the end is exactly the greedy run |
| Regex.FirstMatch | server.py:111-116 | `re.search` returns the leftmost position where the anchored pattern matches, with its match, and no earlier position matches; no result means no position matches |
| Classifier.SearchFindsToken | server.py:111 | a leftmost search with a matcher that is sound and complete for bounded tokens succeeds exactly when some bounded token occurs |
| Classifier.OrderTokenAtSound | server.py:111 | a match of the order regex at a position spans an order token with word boundaries on both sides |
| Classifier.HashTokenIsGreedy | server.py:111 | a bounded `#`-and-digits token takes every digit after the `#`, so it ends where the greedy digit run ends |
| Classifier.OrderTokenAtComplete | server.py:111 | every bounded order token starting at a position is found by the anchored matcher there |
| Classifier.OrderPattern | server.py:111 | the order regex finds a match exactly when some order token stands between word boundaries in the lowered message |
| Classifier.ProductTokenAtCorrect | server.py:116 | the anchored product-word matcher succeeds exactly when a bounded product word starts at that position |
| Classifier.ProductPattern | server.py:116 | the product regex finds a match exactly when `product`, `price`, `tell me about`, `description` or `details` stands between word boundaries |
| Classifier.GreetingTest | server.py:118 | the greeting test holds exactly when `hello`, `hi` or `hey` occurs anywhere in the lowered message, even inside another word |
| Classifier.ThreeDigitsIsRun | server.py:113 | three digits start at a position exactly when the greedy digit run there has length three or more |
| Classifier.OrderNumberAtCases | server.py:113 | `#?(\d{3,10})` anchored at a position takes its digits right after a `#` when three follow, and at the position otherwise; it matches exactly when three digits start there, and group 1 is the digit run cut to ten |
| Classifier.OrderNumberMatch | server.py:113 | a successful anchored match gives three to ten digits that occur in the message where the digits start |
| Classifier.OrderNumber | server.py:113-115 | the order number is three to ten digits that occur in the message, and it is absent exactly when no three digits stand in a row |
| Classifier.LeftmostOrderDigits | server.py:113 | the leftmost match starts no later than any run of three digits, and its digits start at the match or one past a `#` |
| Classifier.OrderNumberIsFirstRun | server.py:113-115 | the order number is the leftmost run of three or more digits, cut to its first ten, whether or not a `#` precedes it |
| Classifier.EmailAtCases | server.py:114 | `[\w\.-]+@[\w\.-]+` anchored at a position matches only at a usable `@`, giving an address that occurs there; it always matches one before a usable `@` |
| Classifier.Email | server.py:114-115 | the e-mail is an address (address characters, `@`, address characters) found in the message, and it is absent exactly when no `@` has an address character on each side |
| Classifier.LeftmostEmailStartsRun | server.py:114 | the leftmost e-mail match starts at the start of a run of address characters |
| Classifier.LeftmostEmailFirstAt | server.py:114 | no usable `@` comes before the `@` of the leftmost e-mail match |
| Classifier.LeftmostEmailSpan | server.py:114 | the leftmost e-mail match is the full span around the first usable `@`, from the start of its local run to the end of its domain run |
| Classifier.FirstAddressSpanUnique | server.py:114 | the span around the first usable `@` is determined by the message |
| Classifier.LeftmostAddress | server.py:114 | with a usable `@` in the message, the e-mail is the text of a first-address span |
| Classifier.EmailIsFirstAddress | server.py:114-115 | the e-mail is the whole address around the first usable `@`, from the start of its local run to the end of its domain run |
| Classifier.RuleClassify | server.py:109-120 | the rules give one of four intents; `order_status` exactly when the order pattern matches the lowered message, `product_info` exactly when only the product pattern does, `greeting` exactly when neither matches and a greeting substring occurs; entities as each rule returns them |
| Classifier.Classify | server.py:92-120 | a usable language-model answer is taken as is; otherwise the result is exactly the rule-based classification, which is never `order_tracking` nor an unknown intent, and whose product is the whole message for `product_info` |
| Catalog.ProductNodes | server.py:59-60 | the products are the edges' nodes in order; a missing key gives no products; a `null` on the way fails with a Python error (never an HTTP one) exactly when it occurs |
| Catalog.SearchProducts | server.py:55-61 | a failed catalog call fails the search with the same exception; an HTTP error can only come from the call; success means the call succeeded with an unbroken payload; after a successful call the outcome is exactly the payload's edge nodes (or the error) as `ProductNodes` gives them |
| Catalog.OrderQuery | server.py:84-86 | the query is `name:` and the order number, followed by ` AND email:` and the e-mail exactly when the e-mail is truthy |
| Catalog.FirstOrder | server.py:88-89 | an order is found exactly when the payload has a non-empty node list, and it is the first node; a `null` `data` or `orders` is a Python error |
| Catalog.FindOrder | server.py:83-89 | a failed call fails with the same exception; an HTTP error only comes from the call; a found order is the first node of the answer to the query built from the number and the e-mail; after a successful call the outcome is exactly the first node or none, as `FirstOrder` gives it |
| ChatEndpoint.NoProductsReply | server.py:138-139 | the no-match apology quotes the search text |
| ChatEndpoint.OrderSummary | server.py:160-162 | the order reply shows the order's name, its number, its shipping status (or `Not fulfilled yet`) and its total |
| ChatEndpoint.ErrorResponse | server.py:173-176 | 502 exactly for an HTTP error, with the `Shopify API error: ` prefix; 500 exactly for any other exception, with its text |
| ChatEndpoint.ProductBranch | server.py:134-148 | the search text is the product entity when truthy, else the message; the search is the next call; a failed search gives the error response (502 for an HTTP error, 500 otherwise) with no further call; no products gives the apology with no composition call; found products give exactly one composition call, on the first product, and the reply is 200 with its text, or 500 with the exception text when composition raises (the handler at server.py:175-176) |
| ChatEndpoint.OrderBranch | server.py:150-163 | without an order number, the request for one and no call; otherwise exactly one order search with the built query; not found gives the fixed reply; a found order gives its summary; a failed search gives the error response (502 for an HTTP error, 500 otherwise), and a non-200 status comes only from a failed search |
| ChatEndpoint.OrderLookupHttpError | server.py:150-176 | an order lookup answered with an HTTP error status ends the request with 502, `Shopify API error: ` and the error's text, after exactly the extraction call and the order search |
| ChatEndpoint.ProductSearchHttpError | server.py:134-176 | a product search answered with an HTTP error status ends the request with 502 and the prefixed error text, after exactly the extraction call and the search, so no reply is composed |
| ChatEndpoint.FallbackBranch | server.py:168-171 | the raw message goes to the language model; its text is the reply, or its exception gives 500 |
| ChatEndpoint.Chat | server.py:124-176 | an empty or missing message gives 400 with no remote call; otherwise extraction is the first call; status is 200, 500 or 502, and 200 exactly with a reply body; at most three calls; a 502 comes from a catalog call made second and carries the prefix; each intent goes to its branch, and a greeting makes no further call |
| ClassifierFacts.OrderNumberOfOnlyRun | server.py:113-115 | a run of three to ten digits with no digit anywhere before it and none right after it is the order number |
| ClassifierFacts.EmailOfOnlyAddress | server.py:114-115 | an address with no `@` before it and nothing address-like touching it is the e-mail |
| ClassifierFacts.BareHashNumberIsFallback | server.py:111-120 | a message that is `#` followed by digits is classified `fallback` by the rules |
| ClassifierFacts.HoodieIsFallback | server.py:110-120 | `Do you have the blue hoodie?` matches neither pattern and holds no greeting, so the rules classify it as `fallback` |
| ClassifierFacts.OrderExampleMatches | server.py:110-111 | the worked order example matches the order pattern |
| ClassifierFacts.OrderExampleNumber | server.py:113-115 | the worked order example's order number is `12345`, without the `#` |
| ClassifierFacts.OrderExampleEmail | server.py:114-115 | the worked order example's e-mail is `a@b.com` |
| ClassifierFacts.OrderExample | server.py:109-115 | the rules classify the worked order example as `order_status` with order number `12345` and e-mail `a@b.com` |

## Left out

- Flask, CORS, routing, the landing page and its template are not modelled.
  Neither is reading the configuration from the environment: they are
  framework and deployment code.
- The HTTP POST to Shopify (`shopify_graphql`, server.py:22-33) is not
  modelled; only its outcome is. That outcome is a parsed payload, an
  `HttpError` for a non-2xx status, or another exception (timeout,
  connection error, a body that is not JSON).
- The language-model calls are inputs given as functions
  (`Services.classify`, `compose`, `generate`). So are `json.loads` and
  the prompt texts: a call's outcome is its text or the message of the
  exception it raised.
- The product-reply prompt embeds `json.dumps(p)`. It is modelled by
  passing the product itself to `compose`. The GraphQL query texts are
  not modelled.
- The product search is capped at six results by the query (`first: 6`).
  The model takes whatever node list the payload holds.
- `str.lower()`, `\w` and `\d` are modelled on ASCII only. Python applies
  them to all of Unicode.
- `session_id` is read by the source but never used, so it is not modelled.
- The request body is modelled as an optional `message` string. Not
  modelled:
  - a body that is not JSON, which `request.get_json()` (server.py:125)
    rejects with an error response;
  - a JSON body that is a truthy non-object (a list or a string), whose
    `.get` at server.py:126 raises outside the `try` (an unhandled 500);
  - a `message` that is not a string, whose `.lower()` in the rule-based
    fallback would raise.
- The language model's entities are modelled as optional strings in a
  record. Not modelled: an `entities` value that is not a dictionary
  (its `.get` would raise inside the `try` and give 500), and entity
  values that are not strings.
- A value of the wrong JSON type on the way to the node list is not
  modelled, for example `products` being a list: its `.get` raises and
  gives 500. Neither is an edge without a `node` key, where `e["node"]`
  (server.py:60) raises `KeyError` and gives 500.
- A product is modelled with its id, title, handle and vendor. An order is
  modelled with its name, number, fulfillment status and amount as
  optional text. The list elements of a node or edge list are assumed not
  to be `null`.
- The order total's `totalPriceSet` / `shopMoney` lookup chain is collapsed
  into one optional amount, so a `null` there is not modelled.
- ChatEndpoint.OrderBranch: an order node that is an empty JSON object is
  treated as found, whereas Python would treat it as falsy (not found).
- The catalog call's 20-second timeout and all concurrency are outside a
  sequential functional model.
