# Stroyka.kz order pages, modelled in Dafny

This project models the logic of four JavaScript files of the Stroyka.kz order
web pages and proves properties about it:

- `api/og-order.js` is the link-preview responder. It looks up an order by its
  registration number. It then rewrites the `<title>`, the description, the four
  Open Graph (`og:*`) and the four Twitter (`twitter:*`) meta tags of a static
  page, with HTML-escaped values. It answers with a status, cache headers and
  the page.
- `order-cmr/api.js` is the `ApiService` browser client. It holds the default
  headers and the language, wraps `fetch`, builds the work-type lookup URL,
  uploads order files one by one, builds the order payload and filters lists by
  a search text.
- `equipment-order/equipment-order.js` is the equipment-order deep-link page. It
  maps the path to a registration number, fetches the order, renders its fields
  with fallbacks and switches the visibility of two containers.
- `qrstroyka.kz-master/order/order.js` is the order list page. It prepends one
  entry per order and handles the "no orders" placeholder and the error
  paragraph.

Modules:

- `Wrappers`: `Option` and `Result`.
- `Text`: the string built-ins the source calls (`startsWith`, `includes`,
  `toLowerCase`, `join`, `substring`).
- `HtmlEscape`: `escapeHtml`, its decoder, and its properties.
- `RegexReplace`: the first-match semantics of `/open.*?close/` and
  `String.prototype.replace`, both with a literal replacement and with the
  `$`-pattern expansion of ECMA-262 GetSubstitution.
- `OgOrder`: `injectMetaTags`, the title, description and URL, and the handler.
- `ApiClient`: the `ApiService` class and its helpers.
- `EquipmentOrder`: the deep-link page.
- `OrderList`: the order list page.

Two facts of the code the model keeps:

- `injectMetaTags` rewrites ten patterns: the title, the description, four
  `og:*` tags and four `twitter:*` tags, `twitter:url` and `twitter:image`
  included.
- `addOrder` uses `prepend`, so the list shows the orders in reverse response
  order.

Conventions:

- A JavaScript value that is falsy (`""`, `null`, `undefined`, `0`) is the empty
  text or `None`.
- A field the source only interpolates into text is carried as the text it
  renders.
- Network calls (`fetch`), the JSON parser, `encodeURIComponent` and the page
  read from disk are parameters of the operations that use them.

## Model

| member | source | states |
|---|---|---|
| Text.Contains | api/og-order.js:48 | `includes` holds exactly when the text occurs at some index |
| Text.LowerChar | order-cmr/api.js:308 | `toLowerCase` changes exactly the Basic Latin and basic Cyrillic capitals, and its result is never a capital |
| Text.LowerIdempotent | order-cmr/api.js:303-308 | lower-casing twice is lower-casing once; no capital is left |
| Text.Truncate | api/og-order.js:86 | `substring(0, n)` keeps exactly the first min(length, n) characters |
| HtmlEscape.EscapeChar | api/og-order.js:35-41 | each special character becomes an entity that starts with `&` and ends with `;`; every other character is kept; no `< > " '` and no inner `&` is produced |
| HtmlEscape.EscapeHtml | api/og-order.js:42 | the escaped text is no shorter than the input and holds no raw `<`, `>`, `"` or `'` |
| HtmlEscape.AmpersandsBeginEntities | api/og-order.js:35-42 | every `&` of the output begins one of `&amp;` `&lt;` `&gt;` `&quot;` `&#039;` |
| HtmlEscape.EscapeIdentity | api/og-order.js:42 | a text without special characters is returned unchanged |
| HtmlEscape.EscapeConcat | api/og-order.js:42 | escaping distributes over concatenation |
| HtmlEscape.UnescapeStep | api/og-order.js:35-41 | decoding one character's escape followed by any text gives back that character first |
| HtmlEscape.UnescapeEscape | api/og-order.js:35-42 | decoding the escaped text gives back the original text |
| HtmlEscape.EscapeInjective | api/og-order.js:35-42 | two texts with the same escape are equal |
| HtmlEscape.EscapeKeepsDollarFree | api/og-order.js:35-42 | escaping adds no `$` |
| RegexReplace.MatchEndUnique | api/og-order.js:46 | a lazy match starting at a given index has only one end |
| RegexReplace.CloseFrom | api/og-order.js:46 | finds the first closing text after the opening with no line terminator before it, or reports that none exists |
| RegexReplace.MatchAt | api/og-order.js:46 | reports the match starting at an index exactly when one exists |
| RegexReplace.FirstMatchFrom | api/og-order.js:46 | returns the leftmost match, or none exactly when there is no match |
| RegexReplace.ReplaceFirst | api/og-order.js:46-63 | without a match the text is unchanged; otherwise the first match, and only it, is replaced by the tag |
| RegexReplace.SubstituteNoDollar | api/og-order.js:46-63 | a replacement string without `$` is inserted literally |
| RegexReplace.SubstituteLiteralFront | api/og-order.js:46-63 | a `$`-free front part of a replacement string is copied as it is |
| RegexReplace.SubstituteMatched | api/og-order.js:46-63 | `$&` in a replacement string stands for the matched text |
| RegexReplace.ReplaceFirstAsWritten | api/og-order.js:46-63 | `replace` with a replacement string puts the `$`-expanded string in place of the first match, and leaves the text unchanged without a match |
| RegexReplace.AsWrittenAgreesWithoutDollar | api/og-order.js:46-63 | for a tag without `$`, the source's replace and the literal replace agree |
| OgOrder.Tag | api/og-order.js:46-63 | a written tag is the pattern's opening, the escaped value without markup characters, and the pattern's closing |
| OgOrder.StepIsLocal | api/og-order.js:46-63 | one step keeps the text before and after the first match, writes the tag in its place, and leaves a page without a match unchanged |
| OgOrder.ApplyStepsWithoutMatches | api/og-order.js:55-63 | a run of steps none of whose patterns match leaves the page unchanged |
| OgOrder.InjectWithoutTagsIsIdentity | api/og-order.js:45-66 | a page holding none of the ten tags is returned unchanged |
| OgOrder.DescriptionGuardRedundant | api/og-order.js:48-53 | the `includes` guard on the description step changes nothing: the step is taken exactly as if unguarded |
| OgOrder.MatchShowsGuard | api/og-order.js:48-50 | a page with a description match contains the guard text |
| OgOrder.GuardOpensDescription | api/og-order.js:48-50 | the guard text is a prefix of the description pattern's opening |
| OgOrder.MetaTagOpening | api/og-order.js:50-63 | each meta pattern's opening starts with `<meta attr="name"` |
| OgOrder.MetaTagShaped | api/og-order.js:50-63 | a meta pattern's opening has only its leading `<`, and a `<` in its closing is followed by `/` |
| OgOrder.OgPatternsShaped | api/og-order.js:55-58 | the four Open Graph patterns have that shape |
| OgOrder.TwitterPatternsShaped | api/og-order.js:60-63 | the four Twitter patterns have that shape |
| OgOrder.MetaPatternsShaped | api/og-order.js:46-63 | all ten patterns have that shape |
| OgOrder.WrittenTagStartsNoMatch | api/og-order.js:45-65 | no opening of any of the ten patterns starts inside a tag written by an earlier step, past its first character |
| OgOrder.NotPrefixAt | api/og-order.js:45-65 | an opening `<x` cannot start where the text has no `<`, or has `</` |
| OgOrder.StepAsWrittenAgrees | api/og-order.js:46-63 | for patterns and a value without `$`, the source's step equals the literal step |
| OgOrder.DollarNameTag | api/og-order.js:46 | the title tag for the name `$&` is `<title>$&amp;</title>` |
| OgOrder.SubstituteAroundMatched | api/og-order.js:46 | a `$&` between two `$`-free parts is read as the matched text |
| OgOrder.TitleTagDollarFree | api/og-order.js:46 | the title pattern's texts hold no `$` |
| OgOrder.ApplyStepsAsWrittenAgrees | api/og-order.js:55-63 | a run of steps whose patterns and values hold no `$` gives the same page whether the tags are read as replacement strings or inserted literally |
| OgOrder.MetaTagDollarFree | api/og-order.js:50-63 | a meta pattern whose attribute and name hold no `$` holds no `$` |
| OgOrder.OgPatternsDollarFree | api/og-order.js:55-58 | the four Open Graph patterns hold no `$` |
| OgOrder.TwitterPatternsDollarFree | api/og-order.js:60-63 | the four Twitter patterns hold no `$` |
| OgOrder.MetaStepsDollarFree | api/og-order.js:55-63 | with `$`-free values, none of the eight Open Graph and Twitter steps holds a `$` |
| OgOrder.InjectAsWrittenAgrees | api/og-order.js:45-66 | when the title, description, URL and image hold no `$`, `injectMetaTags` as the source runs it gives exactly the page of the literal insertion |
| OgOrder.DollarNameSubstitution | api/og-order.js:46 | the source reads that tag as the opening, the matched title tag, `amp;` and the closing |
| OgOrder.DollarNameExpands | api/og-order.js:46 | for the name `$&` the source's title step writes the old title tag into the new one, where the literal step writes `$&amp;` |
| OgOrder.SampleTitleMatch | api/og-order.js:46 | `<title>x</title>` has its one title match at 0..16 |
| OgOrder.OrderApiUrl | api/og-order.js:77 | the upstream URL is the API base URL, then `/rest/api/v1/order/reg/`, then the id |
| OgOrder.Title | api/og-order.js:81-83 | the title differs from the generic title exactly when the order exists and has a name, and is then the title lead followed by the name |
| OgOrder.Description | api/og-order.js:85-87 | no order gives the generic description; an order gives its lead, the first min(length, 100) characters of its description (or the generic phrase when it has none), and `...` |
| OgOrder.PageUrl | api/og-order.js:89 | the canonical URL is the site URL, `/order/`, then the id |
| OgOrder.Respond | api/og-order.js:68-106 | a missing or empty id gives 400 "Missing order ID"; an unreadable page gives 500; otherwise 200, the Content-Type and Cache-Control headers and the page with the tags inserted literally, whether or not the order was found |
| OgOrder.MissingOrderFallsBack | api/og-order.js:78-87 | a missing upstream order still gives 200 with the generic title and description |
| OgOrder.ServerResponse.constructor | api/og-order.js:68 | a new response has status 200, no headers and no body |
| OgOrder.ServerResponse.Status | api/og-order.js:73 | `status` sets the status code and nothing else |
| OgOrder.ServerResponse.SetHeader | api/og-order.js:99-100 | `setHeader` sets one header and nothing else |
| OgOrder.ServerResponse.Send | api/og-order.js:101 | `send` sets the body and nothing else |
| OgOrder.Handle | api/og-order.js:68-106 | the handler leaves on `res` exactly the status, headers and body of `Respond` |
| ApiClient.WithAuthToken | order-cmr/api.js:20-26 | a non-empty token sets `Authorization: Bearer <token>`; an empty one removes the key; no other header changes |
| ApiClient.AuthTokenIdempotent | order-cmr/api.js:20-26 | setting the same token twice equals setting it once |
| ApiClient.MergeHeaders | order-cmr/api.js:42-45 | the merged headers have the keys of both maps, with the per-call value winning |
| ApiClient.MergeExtension | order-cmr/api.js:231-234 | merging the instance headers with an extension of themselves gives that extension |
| ApiClient.DecodeBody | order-cmr/api.js:59-79 | the decoded body is the parsed JSON when the text parses, and the text itself otherwise |
| ApiClient.DecodedTextIsVerbatim | order-cmr/api.js:59-79 | text is never altered, and JSON comes back exactly when the text parses |
| ApiClient.WorkTypesUrl | order-cmr/api.js:162-166 | the URL is the fixed lookup URL, followed by `&search=` and the encoded text exactly when the search text is non-empty |
| ApiClient.FileRecord | order-cmr/api.js:259-269 | the record's type is IMAGE exactly when the MIME type starts with `image/`; it carries the file name, the returned `fileRef` and the bucket URL |
| ApiClient.UploadedIndices | order-cmr/api.js:243-277 | each record is the record of a stored upload of the input, at increasing positions, and every stored file has its record |
| ApiClient.UploadedInOrder | order-cmr/api.js:243-277 | the records follow the input order, exactly one per stored file, and are never more than the input |
| ApiClient.UploadedFailsOnlyOnThrow | order-cmr/api.js:255-275 | a non-ok upload is skipped silently: the uploads fail exactly when one of them throws |
| ApiClient.UploadedAbortsOnError | order-cmr/api.js:273-275 | once an upload throws, the whole upload ends with that error |
| ApiClient.OrNull | order-cmr/api.js:205-206 | a falsy text becomes null and any other text is kept |
| ApiClient.OrZero | order-cmr/api.js:214-215 | a missing number becomes 0 and any other number is kept |
| ApiClient.BuildPayload | order-cmr/api.js:195-225 | the payload has service type 1 "Строительно-монтажные работы", `profileHidden` false, no details, `workTypeId` equal to the work type's id, null or 0 defaults, and the given file records |
| ApiClient.FieldError | order-cmr/api.js:305-308 | a missing field, a `null` field and a number or boolean field each throw their own TypeError |
| ApiClient.FilterItemsFails | order-cmr/api.js:304-308 | the filter throws exactly when some item's field is missing, `null`, a number or a boolean |
| ApiClient.FilterItemsIndices | order-cmr/api.js:304-309 | the kept items sit at increasing positions of the input, and a position is kept exactly when that item's field contains the search |
| ApiClient.FilterItemsSpec | order-cmr/api.js:303-309 | for a non-empty search: failure exactly on an unsearchable field; otherwise the matching items, position by position, in their order, each once |
| ApiClient.FilterBySearchSpec | order-cmr/api.js:300-310 | an empty search returns the items; otherwise as above |
| ApiClient.FilterKeepsMatching | order-cmr/api.js:304-309 | items that all match are all kept |
| ApiClient.FilterIdempotent | order-cmr/api.js:300-310 | filtering the result again changes nothing |
| ApiClient.ApiService.constructor | order-cmr/api.js:10-15 | a new service has exactly the header `Content-Type: application/json` and language `kk` |
| ApiClient.ApiService.SetAuthToken | order-cmr/api.js:20-26 | the headers become `WithAuthToken` of the old headers; the language is kept |
| ApiClient.ApiService.SetLanguage | order-cmr/api.js:31-33 | the language is replaced and the headers are kept |
| ApiClient.ApiService.RequestFor | order-cmr/api.js:40-46 | the request keeps the URL, method and body, and its headers are the instance headers overridden key by key by the per-call headers |
| ApiClient.ApiService.MakeRequest | order-cmr/api.js:38-89 | a thrown fetch is rethrown; a non-ok status is always an error carrying that status; an ok response gives the decoded body |
| ApiClient.ApiService.UploadFiles | order-cmr/api.js:242-278 | the loop returns exactly `Uploaded` of the files, with the instance's `Authorization` header |
| ApiClient.ApiService.CreateOrderRequest | order-cmr/api.js:229-236 | the order is posted to the order URL with the instance headers plus `language: kk`, whatever the service's language, and with the built payload |
| ApiClient.ApiService.CreateOrder | order-cmr/api.js:185-237 | without files the payload has no file records; otherwise a failed upload is rethrown, and a successful one posts the payload with its records |
| EquipmentOrder.MatchOrderPath | equipment-order/equipment-order.js:46-49 | the path matches exactly when it is `/equipment-order/` followed by a non-empty segment without `/`, and that segment is the registration number |
| EquipmentOrder.MatchOrderPathInverse | equipment-order/equipment-order.js:46-49 | the page path of a valid registration number is matched back to that number |
| EquipmentOrder.OrderUrl | equipment-order/equipment-order.js:14 | the request URL is the base URL and endpoint followed by the registration number |
| EquipmentOrder.GetOrderByRegNumber | equipment-order/equipment-order.js:13-33 | a non-ok response is an error with its status; the order loads exactly when the response is ok and its JSON parses |
| EquipmentOrder.OrDash | equipment-order/equipment-order.js:103-139 | a missing field renders as `-`; a present one renders as it is |
| EquipmentOrder.DashMeansMissing | equipment-order/equipment-order.js:103-139 | a field renders as `-` exactly when it is missing or is itself `-` |
| EquipmentOrder.CategoryPills | equipment-order/equipment-order.js:92-98 | no pills exactly when both names are empty; one pill per non-empty name, category first |
| EquipmentOrder.Render | equipment-order/equipment-order.js:90-148 | the seven detail fields fall back to `-`; the name and registration number render as they are (empty when missing); the note " (Договорная)" appears exactly when negotiable; `👁 ` and the view count appear exactly when there is a count; the pills are `CategoryPills` of the two names |
| EquipmentOrder.PanelFor | equipment-order/equipment-order.js:52-57 | the card is shown exactly when the order loaded as an object; every failure shows the fixed error message |
| EquipmentOrder.EquipmentOrderPage.constructor | equipment-order/equipment-order.js:40-43 | both containers start visible, with nothing shown |
| EquipmentOrder.EquipmentOrderPage.Show | equipment-order/equipment-order.js:63-88 | writing the deep-link container changes only what it shows |
| EquipmentOrder.EquipmentOrderPage.OnLoad | equipment-order/equipment-order.js:40-61 | on a matching path the default content is hidden, and the loading panel, then the card or the error, are shown; otherwise only the deep-link container is hidden |
| OrderList.EntryLines | qrstroyka.kz-master/order/order.js:10-15 | an entry shows id, email, phone and status, in that order |
| OrderList.Prepended | qrstroyka.kz-master/order/order.js:16-31 | adding n orders puts n entries in front |
| OrderList.PrependedReverses | qrstroyka.kz-master/order/order.js:16-31 | entry k is the k-th order from the end: the list shows the response in reverse order |
| OrderList.OrderListPage.constructor | qrstroyka.kz-master/order/order.js:1-2 | the list starts empty with the placeholder visible |
| OrderList.OrderListPage.AddOrder | qrstroyka.kz-master/order/order.js:5-17 | the entry goes first, and the placeholder is hidden when it exists |
| OrderList.OrderListPage.Fail | qrstroyka.kz-master/order/order.js:35-37 | the whole list becomes one error paragraph; the placeholder is untouched |
| OrderList.OrderListPage.AddAll | qrstroyka.kz-master/order/order.js:31 | an all-object response is prepended in reverse order; a `null` element replaces the list with the TypeError paragraph; either way an existing placeholder is hidden, since `addOrder` hides it before reading the order |
| OrderList.OrderListPage.ShowNoOrders | qrstroyka.kz-master/order/order.js:33 | the placeholder text becomes "Нет заказов", or the list shows the TypeError when there is no placeholder |
| OrderList.OrderListPage.LoadOrders | qrstroyka.kz-master/order/order.js:20-38 | an unreachable server, a non-ok status or an unparsable body replace the list with one error paragraph; an empty or non-array body only sets "Нет заказов"; a non-empty array is added as above |

## Left out

- Network I/O (`fetch`, `AbortController`, the 5-second and 30-second timeouts) is not modelled. Each fetch is a function parameter that returns a response or a thrown error. A timeout is one of those thrown errors.
- Reading `order/order.html` from disk is a parameter. A failed read is `None`, which gives status 500.
- The JSON parser, `JSON.stringify` and `encodeURIComponent` are parameters or abstract values. Their own behaviour is not modelled.
- `toLowerCase` is modelled for Basic Latin and the basic Cyrillic capitals (U+0400 to U+042F). Other characters are treated as unchanged.
- The regular expressions are modelled as a fixed opening, a lazy middle without line terminators, and a fixed closing. Nothing else of the regex engine is modelled.
- InjectMetaTags: the ten steps are not proved independent of their order, because they are not. A template with a tag inside another tag's content, on one line, can be rewritten differently when the steps are swapped. For example, take the line `<meta property="og:url" content="x <meta property="og:title" content="y">` followed by the line `<meta property="og:title" content="z">`. In the source's order (`og:title` first), the title step rewrites the inner tag, the URL step then replaces the whole first line, and the second line keeps `z`. With the URL step first, the title step rewrites the second line instead. What is proved instead: a later step never matches starting inside text an earlier step wrote (WrittenTagStartsNoMatch). Also, each step only rewrites its first match (StepIsLocal).
- `debounce` is not modelled. It is timer behaviour only.
- `registerUser`, `sendSMS`, `verifySMS`, `getAuthToken` (with its fixed Basic credential) and `getAddresses` are not modelled. They are fixed request shapes passed to `makeRequest`, with no logic of their own.
- ApiService.UploadFiles: the upload request carries `None` when no token is set. The browser then sends the text `undefined` as the header, and the model does not follow that into the header map.
- ApiService.MakeRequest: a failure to read the body text after a failed JSON parse is not modelled. Both reads see the same bytes.
- Status-line texts (`HTTP error! status: N`, `HTTP N: text`) are carried as their status and text, not as formatted strings.
- The DOM is not modelled: markup, CSS, the modal helpers, `window.apiService` and `console` logging. Each container is a sequence or a panel value plus visibility flags.
- The TypeError messages of the order list and of `filterBySearch` follow V8's wording.
- ApiClient.FieldText: an object field's values are carried as the text `join` renders for each of them. How `join` renders a nested object, `null` or a number is not modelled. A number field is an integer.
- Node and Vercel headers that `send` adds by default are not modelled.
- OgOrder.Description: a non-string truthy `description` (for which `substring` would throw, giving 500) is not modelled. The field is a text.
- OgOrder.Respond: an `id` given twice in the query (an array) is not modelled. The id is a text.
- OgOrder.Respond: the page is built with the literal insertion (`InjectMetaTags`), the corrected behaviour of the finding below. The source reads each tag as a replacement string, which is `InjectMetaTagsAsWritten`. The two give the same page whenever the title, description, URL and image hold no `$` (InjectAsWrittenAgrees). They differ otherwise, as DollarNameExpands shows.
- OgOrder.Description: `substring(0, 100)` counts UTF-16 code units, while the model counts Unicode characters. A description with characters outside the Basic Multilingual Plane, such as emoji, is cut at a different point, and the source can split a surrogate pair there.

## Findings

| source | as written | input that shows it | evidently intended | confidence | as-written member | corrected member |
|---|---|---|---|---|---|---|
| api/og-order.js:46-63 | each tag is passed to `String.prototype.replace` as a replacement string, so `$&`, `` $` ``, `$'` and `$$` in the escaped value are expanded; `escapeHtml` does not escape `$` | an order named `$&` on a page with `<title>x</title>`: the new title holds the old title tag and `amp;` | the escaped value is inserted literally (`<title>$&amp;</title>`), e.g. by passing a function as the replacement | not executed | OgOrder.DollarNameExpands | OgOrder.StepIsLocal |
