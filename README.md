# url_redirect in Dafny

A model of the URL shortener's server logic (`server.js`) and of the browser
script that talks to it (`public/script.js`), with the properties they promise
proved.

Server (`Store`, `Server`, `ShortCode`, `JsStrings`):

- **Short-code allocation** (`POST /api/shorten`). A missing or empty
  `originalUrl` is refused first. Then one the URL parser rejects is refused.
  A non-blank custom name is trimmed, lower-cased and stripped to
  `[a-z0-9._-]`. If nothing survives, one random code is used instead. The
  name is refused when it ends in one of eight static-file extensions, or
  when the memory map already holds it. With no usable name, 8-hex-digit
  random codes are drawn until one is not a memory key.
- **Two-tier store.** `urlDatabase` (memory) sits in front of an optional
  MongoDB collection (durable). The class `Store.UrlStore` has both tiers as
  fields. Its methods `SaveUrl`, `GetUrl` and `LoadUrls` are proved against
  the specification functions `AfterSave`, `Read` and `Load`.
- **Redirect** (`GET /:shortCode`). Five reserved file names and eleven
  asset extensions answer 404 before the store is touched. Otherwise the
  read-through lookup decides between a redirect and 404.

Client (`Client`): the checks the shorten button makes before sending a
request, the `https://` prefixing, the three-colour character counter, and
the paginated list of links (`allUrls`, `currentPage`, `displayUrls`,
`displayPage`, `changePage`). The list is the class `Client.UrlList`.

The model proves these consequences of the code as written:

- The shorten handler forbids fewer names than the redirect route drops.
  `robots.txt` and `logo.woff2` are allocated and saved, but every visit to
  them answers 404 (`Server.StaticNameAllocatedButUnreachable`).
- The collision check reads memory only, while the durable write is an
  upsert. A code held only by the durable tier is handed out again, and its
  old URL is replaced (`Server.DurableOnlyCodeIsReassigned`). When memory
  covers the durable tier, this cannot happen
  (`Server.CoveredStoreNeverReassigns`).
- Only the browser enforces the 50-character limit on custom names
  (`Server.ServerAcceptsLongName`).
- A custom name that strips to nothing gets one random code. If that code
  collides, the request is refused as "name in use" and no new code is drawn
  (`Server.StrippedNameFallsBack`).
- `displayUrls` keeps `currentPage`. Suppose the list shrinks to ten or fewer
  entries while page 2 or later is open. The list then shows no rows and no
  pagination block (`Client.StalePageShowsNothing`). With more than ten
  entries, a page past the end shows no rows but a block whose range runs
  backwards (for 15 entries on page 3, "21-15", page 3 of 2) with both
  buttons enabled (`Client.StalePageShowsBrokenPager`).

Other behaviour of the code worth knowing:

- The server sets no length limit on custom names.
- Of the five reserved file names only `robots.txt` is accepted at shorten
  time; the other four end in a forbidden extension and are refused.
- The collision check and the memory write of `saveUrl` run in the same
  event-loop turn: nothing between `urlDatabase.has` and
  `urlDatabase.set` awaits. The check consults memory only, never the
  durable tier.
- The random-code loop has no bound on the number of draws.

## Model

| member | source | states |
|---|---|---|
| `JsStrings.Trim` | server.js:157-159 | `trim()` yields a slice of the input with no trimmable character at either end (ECMAScript white space and line terminators), and everything it drops before and after that slice is trimmable |
| `JsStrings.Utf16Length` | public/script.js:61-66 | `.length` counts UTF-16 code units: between one and two per character, and equal to the number of characters exactly when none lies outside the Basic Multilingual Plane |
| `JsStrings.TrimIdempotent` | public/script.js:52-53 | trimming an already trimmed input changes nothing |
| `JsStrings.Utf16LengthOfTrim` | public/script.js:61-66 | trimming never increases the JavaScript (UTF-16) length |
| `ShortCode.LowerChar` | server.js:159 | `toLowerCase()` of one character gives one or two characters and no capital A-Z |
| `ShortCode.LowerCharCounts` | server.js:159 | the code characters in the lower-case form of one character are exactly: the character itself if it is one, the lower-case letter of a capital A-Z, `i` for U+0130 and `k` for U+212A |
| `ShortCode.ToLower` | server.js:159 | `toLowerCase()` leaves no capital A-Z, at most doubles the length, and each `[a-z0-9._-]` character occurs exactly as often as the input characters that lower-case to it (itself, its capital A-Z, and U+0130 for `i`, U+212A for `k`) |
| `ShortCode.StripDisallowed` | server.js:159 | the regex replace keeps exactly the `[a-z0-9._-]` characters of the input, each as often as it occurs, and drops every other; a string already over that alphabet is unchanged |
| `ShortCode.Normalise` | server.js:159 | a normalised custom name is over `[a-z0-9._-]` and no longer than the trimmed input, even though lower-casing U+0130 adds a character; each code character occurs in it exactly as often as the characters of the trimmed input that lower-case to it |
| `ShortCode.StripLowerLength` | server.js:159 | lower-casing then stripping never yields more characters than went in |
| `ShortCode.NormaliseIdempotent` | server.js:159 | normalising a normalised name changes nothing |
| `ShortCode.NormaliseFixedPoints` | server.js:159 | normalisation leaves a name unchanged exactly when the name is over `[a-z0-9._-]` |
| `ShortCode.HasForbiddenExtension` | server.js:167-168 | every name refused for its extension contains a dot |
| `ShortCode.IsStaticRequest` | server.js:250-254 | every code the redirect route drops as a static file contains a dot |
| `ShortCode.ForbiddenIsStatic` | server.js:166-170 | every name the shorten handler refuses for its extension is also dropped by the redirect filter (lines 250-254) |
| `ShortCode.DotFreeIsNotStatic` | server.js:250-254 | a code without a dot passes both the forbidden-extension check and the redirect filter |
| `ShortCode.HexEncode` | server.js:178 | `randomBytes(n).toString('hex')` gives 2n lower-case hex digits |
| `ShortCode.HexDecodeEncode` | server.js:178 | decoding the hex spelling of some bytes gives those bytes back |
| `ShortCode.HexEncodeDecode` | server.js:178 | every lower-case hex string of even length is the spelling of the bytes it decodes to |
| `ShortCode.RandomCodesAreHexCodes` | server.js:163 | each 4-byte draw gives exactly one 8-hex-digit code, and each 8-hex-digit code comes from exactly one draw |
| `ShortCode.HexCodeIsRoutable` | server.js:178-183 | a random code never ends in a forbidden extension and is never dropped by the redirect filter, because it has no dot |
| `Store.AfterSave` | server.js:72-98 | after `saveUrl(c, u)` memory maps `c` to `u`; the durable tier exists exactly when it did, and gains the key `c` exactly when the write succeeded |
| `Store.Read` | server.js:100-126 | `getUrl` returns a value exactly when memory then holds the code, and memory then maps the code to that value; the durable tier is never changed, and memory gains at most the code looked up |
| `Store.Load` | server.js:54-70 | `loadUrls` leaves the durable tier as it is and adds every durable code to memory unless the find throws |
| `Store.UrlStore.constructor` | server.js:25-31 | a new process starts with an empty memory map and the durable collection if it connected |
| `Store.UrlStore.SaveUrl` | server.js:72-98 | the new state is `AfterSave`: memory is written, then the durable upsert either succeeds or throws, and the catch writes memory again |
| `Store.UrlStore.GetUrl` | server.js:100-126 | the answer and the new state are `Read`: memory first, then on a falsy memory value the durable document, which is copied into memory |
| `Store.UrlStore.LoadUrls` | server.js:54-70 | the documents are copied into memory one by one in an unspecified order; the result is `Load`, memory overlaid with the durable map, or no change if the find throws |
| `Store.SaveEffect` | server.js:72-98 | after `saveUrl(c, u)` memory maps `c` to `u` whether or not the durable write threw; every other key keeps its presence and its value in both tiers; the durable tier holds `u` exactly when it exists and the write succeeded |
| `Store.SaveThenRead` | server.js:72-126 | for a non-empty `u` (the shorten handler never saves an empty URL, server.js:141), a `getUrl(c)` after `saveUrl(c, u)` returns `u` and changes nothing, whatever the durable tier does |
| `Store.ReadMemoryHit` | server.js:100-104 | on a memory hit the memory value is returned and the state is unchanged, whatever the durable tier holds |
| `Store.ReadThrough` | server.js:104-111 | on a memory miss with a durable hit, the durable URL is returned and copied into memory, and nothing else changes |
| `Store.ReadNothingIff` | server.js:100-125 | `getUrl` returns nothing exactly when memory has no entry and no durable document is read |
| `Store.ReadFalsyIff` | server.js:100-125 | `getUrl` returns a falsy value exactly when neither tier yields a non-empty URL |
| `Store.ReadKeepsEntries` | server.js:100-126 | a lookup never changes the durable tier, never drops a memory key, and changes no value other than the one looked up |
| `Store.LoadCovers` | server.js:57-64 | a successful bulk load puts every durable code into memory with its durable URL and keeps other memory entries |
| `Store.CoversPreserved` | server.js:72-126 | saving and reading keep every durable code in memory |
| `Server.FirstFresh` | server.js:181-183 | the loop stops at the first draw whose code is not a memory key, and it finds none only when every draw collides |
| `Server.FreshCode` | server.js:178-183 | the code the random loop returns is eight hex digits and not a memory key |
| `Server.RandomCode` | server.js:176-184 | the while loop returns the first draw that is not a memory key, or none when the draws run out |
| `Server.Allocate` | server.js:139-184 | an allocated code comes with a present, parsable URL; it is non-empty, not a memory key and has no forbidden extension |
| `Server.Shorten` | server.js:139-198 | the handler answers as `Allocate` decides; it saves and returns `protocol://host/code` only for an allocated code; every refusal leaves both tiers unchanged |
| `Server.Resolve` | server.js:253-269 | the file 404 comes exactly for filtered codes, which leave the store alone; otherwise a non-empty memory URL is redirected to with no state change; else a durable document that is read is copied into memory and redirected to if non-empty (404 if empty); else the lookup 404 with no state change; the durable tier never changes |
| `Server.Redirect` | server.js:246-270 | a reserved file name or asset extension answers 404 with no store access; otherwise the handler redirects to the looked-up URL, or answers 404 when that URL is falsy |
| `Server.UrlChecksComeFirst` | server.js:141-152 | a missing or empty URL is refused as missing, and then an unparsable one as invalid, before the name or the random source is used |
| `Server.CustomNameOutcome` | server.js:157-175 | a non-empty normalised name is refused when it has a forbidden extension, else refused when it is in use, else allocated as it is |
| `Server.BlankNameFallsBack` | server.js:176-184 | an absent or blank custom name gets the first draw that is not a memory key, and earlier draws all collide |
| `Server.StrippedNameFallsBack` | server.js:162-175 | a name that strips to nothing gets the first draw; if that collides the request is refused as in use, with no second draw |
| `Server.AllocatedCodeShape` | server.js:157-184 | an allocated code is the normalised custom name or eight hex digits; it is over `[a-z0-9._-]`, not in use and has no forbidden extension |
| `Server.ShortenThenRedirect` | server.js:187-269 | once a code is allocated and saved, visiting it redirects to the original URL whether or not either durable call throws, unless the redirect filter drops it |
| `Server.RandomCodeRedirects` | server.js:176-187 | shortening without a custom name always yields a code that redirects to the original URL |
| `Server.CoveredStoreNeverReassigns` | server.js:173-187 | if memory holds every durable code, an allocated code is in neither tier, so the upsert inserts; the shorten keeps memory covering the durable tier |
| `Server.NormalNameAllocated` | server.js:157-175 | a custom name already in normal form, with no forbidden extension and not in memory, is allocated exactly as given |
| `Server.DurableOnlyCodeIsReassigned` | server.js:173-187 | `ex1` held only by the durable tier is allocated again, and the upsert replaces the URL it pointed to |
| `Server.StaticNameAllocatedButUnreachable` | server.js:250-257 | `robots.txt` and `logo.woff2` are allocated and saved, yet every visit answers 404 |
| `Server.ServerAcceptsLongName` | server.js:157-175 | the server allocates a 51-character custom name unchanged |
| `Client.FormatUrl` | public/script.js:72-75 | the URL sent always starts with `http://` or `https://` and ends with what was typed; a URL that already has a scheme is sent unchanged, and any other gets `https://` in front |
| `Client.FormatUrlIdempotent` | public/script.js:72-75 | formatting twice is formatting once |
| `Client.PrepareShorten` | public/script.js:52-75 | a request is sent exactly when the trimmed URL is non-empty and at most 2000 UTF-16 units and the trimmed name at most 50; the refusals come in order (empty URL, then URL too long, then name too long), each exactly when the earlier checks pass and its own fails; the body is the formatted trimmed URL and the trimmed name |
| `Client.CounterBand` | public/script.js:14-28 | red exactly above the maximum; grey exactly at or below 80% of it; yellow in between |
| `Client.CounterBandMonotone` | public/script.js:18-27 | a longer input never shows a calmer colour |
| `Client.TooLongShowsRed` | public/script.js:42-69 | when the button refuses an input as too long, that input's counter already shows red |
| `Client.Entries` | public/script.js:248-252 | one entry per (code, URL) pair in order, whose short URL is `origin/` followed by the code |
| `Client.TotalPages` | public/script.js:266 | the page count is the ceiling of n/10: zero exactly for an empty list, otherwise the least k with 10k >= n |
| `Client.PageItems` | public/script.js:263-265 | page p shows entries `(p-1)*10 ..` in order, at most ten; an existing page shows at least one; a page past the end shows none |
| `Client.Render` | public/script.js:262-299 | the view shows the page's slice of entries; the pagination block appears exactly when there are more than ten entries, with the total, the first row number, the last row number `min(start + 10, n)`, the page and the page count, and the previous (next) button disabled exactly on the first (last) page |
| `Client.UrlList.constructor` | public/script.js:243-245 | the list starts empty on page 1 with nothing shown |
| `Client.UrlList.DisplayUrls` | public/script.js:247-260 | the list is replaced by the new entries; an empty list shows the empty message; otherwise the current page, which is kept, is shown |
| `Client.UrlList.DisplayPage` | public/script.js:262-302 | shows the page's entries and, when there is more than one page, the range `start+1 .. min(end, n)` and the two buttons |
| `Client.UrlList.ChangePage` | public/script.js:305-311 | moves to the page and redraws only when 1 <= page <= totalPages; otherwise nothing changes |
| `Client.EveryEntryOnItsPage` | public/script.js:262-266 | entry i appears on page i/10+1 at row i mod 10, and that page exists |
| `Client.PagerMatchesItems` | public/script.js:282-299 | on an existing page the block appears exactly when there are more than ten entries, and its range text counts exactly the rows shown |
| `Client.ButtonsMatchChangePage` | public/script.js:289-311 | on an existing page a button is enabled exactly when `changePage` would accept the page it asks for |
| `Client.StalePageShowsNothing` | public/script.js:247-266 | with one to ten entries, page 2 or later shows no rows and no pagination block |
| `Client.StalePageShowsBrokenPager` | public/script.js:259-293 | with more than ten entries, a page past the last shows no rows but a pagination block whose last row is the total and whose first row is beyond it, whose page exceeds the page count, and whose two buttons are both enabled |

The one-line helpers `Server.HasCustomName` (server.js:157), `Server.ShortUrl`
(server.js:190), `Store.Truthy` (server.js:104 and 262), `JsStrings.StartsWith`
(public/script.js:73) and `JsStrings.EndsWith` (server.js:168 and 254) are
the source expressions themselves; the rows of the members that use them
cover them.

## Left out

- A Dafny `char` is a Unicode scalar value, while JavaScript strings are sequences of UTF-16 code units that may hold lone surrogates. `.length`, `trim()` and the regex work on code units; the model works on scalar values and counts the code units with `JsStrings.Utf16Length`. Strings holding lone surrogates are not modelled.

- `Server.RandomCode`: the random source is a finite sequence of 4-byte draws. When it runs out, the loop returns nothing. The source loops until it finds a fresh code, and its termination cannot be proved.
- `Server.Shorten`: answers `NoFreshCode` when the draws run out. The source has no such answer.
- `ShortCode.LowerChar`: models `toLowerCase` exactly only where the lower-case form contains an ASCII character (A-Z, U+0130, U+212A). Other characters are left as they are. Their real lower-case forms hold no character of `[a-z0-9._-]` and are stripped next, so `Normalise` is exact.
- `new URL(originalUrl)` (WHATWG URL parsing) is the parameter `parses`.
- Request values that are not strings (a number as `originalUrl` or `customName`) are not modelled.
- MongoDB is a map from code to URL. The connection attempt is the constructor's argument. A thrown driver call is a boolean argument of each operation. The `createdAt` and `lastAccessed` timestamps are not modelled. Neither is the `updateOne` that sets `lastAccessed`: its failure changes no modelled state.
- Express routing, CORS, `app.listen` and logging are left out. So is `express.static('public')`, which runs before the catch-all route. A custom name equal to a file served from `public/` would reach that file instead. The contents of that directory are not part of this model.
- `GET /api/urls`, `GET /api/test` and `GET /api/shorten-test` are left out. They have no logic beyond listing the memory map or saving a fixed pair.
- The model is sequential. Three interleavings the source allows are not modelled. First, the MongoDB connection is made inside `loadUrls()` (server.js:55), which is not awaited (server.js:129), so `app.listen` is reached while `collection` is still `null`. Until the connection completes the durable tier is absent: a save takes the memory-only branch (server.js:90-91) and is never written to MongoDB, so it is lost when the process ends, and a lookup skips the durable tier (server.js:104). The model fixes the durable tier once, in the `Store.UrlStore` constructor. Second, the memory writes of `loadUrls()` can land after requests have been served and overwrite what they saved. Third, `getUrl` awaits `findOne` before it writes memory, so a save of the same code that runs while it waits can have its memory entry overwritten by the URL `findOne` read.
- `/api/urls` returns an array, while `displayUrls` calls `Object.entries` on its argument. `Client.UrlList.DisplayUrls` takes a sequence of (code, URL) pairs instead.
- The HTML strings, the social-share links, the clipboard copy, `setTimeout` resets, `showResult`/`showError`, and the response handling after `fetch` are left out. So are the counter text `n/max` and the Enter-key handlers, which only click the button.
