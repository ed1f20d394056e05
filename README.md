# homenavi-marketplace, modelled in Dafny

This project models the homenavi marketplace, a catalogue where integrations are published, versioned and downloaded. It covers its trust-gated publish pipeline and the small decisions around it:

- **Publish handlers** (`handlers.dfy`). They cover:
  - the rules a publish request, its compose file and the OIDC claims must pass;
  - the bearer-token and tag extraction;
  - the order of checks and status codes in `PublishOIDC` and `Publish`.
- **Publish and versioning engine** (`store.dfy`). The integrations table is a map from (id, version) to its row. A class `IntegrationStore` holds that map and the append-only download events, and its methods are the store's operations:
  - publish a version;
  - count a download;
  - get one row, list the rows, list a package's versions.

  The table invariants are proved preserved by each operation:
  - each row sits under its own key;
  - at most one latest row per package;
  - latest rows of different packages never share a listen path or a name;
  - download counters fit int64.
- **GitHub OIDC gate** (`oidc.dfy`). It covers:
  - the JSON Web Key Set cache (a class with the key map and its expiry) and its refresh rule;
  - the loop that turns a fetched key set into RSA keys;
  - the checks `Verify` makes before and after the JWT library;
  - the decision of `VerifyWorkflow`.
- **Configuration** (`config.dfy`): `getEnv`, `splitCSV` and the defaults of `Load`, with the environment as a map.
- **CORS middleware** (`cors.dfy`): the origin allowlist, the headers an allowed origin receives, and the OPTIONS short-circuit.
- **Web client** components:
  - the marketplace list, with its counters, filters, search and sort (`marketplace.dfy`);
  - the image gallery's viewer state (`gallery.dfy`), as a class whose methods are the click and key handlers;
  - the integration card's labels, cover and badges (`card.dfy`);
  - the icon dispatch (`icon.dfy`).

Supporting modules:

- `wrappers.dfy`: Option, Result and Outcome.
- `models.dfy`: the publish request and the integration row.
- `strings.dfy`: Go's and JavaScript's trimming, ASCII case mapping, `strings.Split`/`Join` with their round trip, and code-point order.
- `sequences.dfy`: filter, map and count, and an insertion sort with its sortedness and permutation lemmas.

The time, every network answer, the JWT library's verdict, base64 decoding and the YAML parser are parameters.

## Model

| member | source | states |
|---|---|---|
| Store.IntegrationStore.PublishIntegration | api/internal/store/integrations.go:125-235 | An empty listen path fails with nothing written. Otherwise another package's latest row with the same listen path gives ListenPathInUse, checked before the name, which gives NameInUse, and in both cases the table is unchanged. Otherwise the table becomes `Published(old rows)` and the stored row is returned. The table invariants are kept. |
| Store.IntegrationStore.EnsureListenPathAvailable | api/internal/store/integrations.go:237-249 | Passes exactly when no latest row of another package uses the path; otherwise ListenPathInUse. |
| Store.IntegrationStore.EnsureNameAvailable | api/internal/store/integrations.go:251-263 | Passes exactly when no latest row of another package uses the name; otherwise NameInUse. |
| Store.IntegrationStore.GetLatestStats | api/internal/store/integrations.go:271-281 | None exactly when the package has no latest row; otherwise the downloads, trending score and featured flag of that row. |
| Store.IntegrationStore.GetIntegration | api/internal/store/integrations.go:49-62 | With a version, found exactly when (id, version) is a key, and then that row. Without one, found exactly when the package has a latest row, and then that row. Otherwise NotFound. |
| Store.IntegrationStore.ListIntegrations | api/internal/store/integrations.go:22-47 | Exactly the rows passing the latest/featured filters, each once, sorted by the order the trimmed, lowercased sort key selects. |
| Store.IntegrationStore.ListVersions | api/internal/store/integrations.go:64-74 | Exactly the package's rows, each once, newest created_at first. |
| Store.IntegrationStore.IncrementDownloads | api/internal/store/integrations.go:76-123 | Without a latest row: NotFound and nothing changes. Otherwise one event (id, now) is appended, and only the latest row changes: downloads + 1, trending = that package's events in the last seven days, updated_at = now. When the int64 counter is full, everything rolls back. The invariants are kept. |
| Store.ParseSort | api/internal/store/integrations.go:31-40 | downloads, trending and version are chosen exactly when the trimmed, lowercased parameter spells them; anything else sorts by name. |
| Store.OrderIsTotalPreorder | api/internal/store/integrations.go:31-40 | Every listing order (downloads DESC then name, trending DESC then name, version DESC, name) is total and transitive. |
| Store.NewestFirstIsTotalPreorder | api/internal/store/integrations.go:69 | created_at DESC is a total preorder. |
| Store.ClearLatestEffect | api/internal/store/integrations.go:166 | Clearing the flag keeps the keys, leaves no row of the package latest, and leaves other packages' rows as they were. |
| Store.PublishedMakesLatest | api/internal/store/integrations.go:166-196 | After a publish, (id, version) is present, latest, carries the given verified flag, and is the package's only latest row. |
| Store.PublishedKeepsOthers | api/internal/store/integrations.go:166-223 | A publish adds at most the key (id, version) and leaves every row of other packages unchanged. |
| Store.PublishedCarriesStats | api/internal/store/integrations.go:171-195 | The new row's downloads, trending score and featured flag are those of the package's latest row before the publish, or 0, 0 and false when there was none. |
| Store.PublishedUpsertsByKey | api/internal/store/integrations.go:198-223 | Republishing an existing (id, version) keeps the row count and that row's created_at. A new version adds exactly one row, created now. updated_at is now. |
| Store.PublishedKeepsInvariant | api/internal/store/integrations.go:132-223 | A publish that passed both availability checks keeps all table invariants. |
| Store.ListenPathClaimedByPublish | api/internal/store/integrations.go:132-137 | After package A publishes at a path, the path is taken for every other package but not for A itself. |
| Store.IncrementKeepsInvariant | api/internal/store/integrations.go:100-109 | Bumping one row's downloads (within int64), trending and updated_at keeps the table invariants. |
| Store.RecentCountAppend | api/internal/store/integrations.go:87-98 | Recording one event raises the package's windowed count by one exactly when the event is that package's and inside the window. |
| Store.TrendingAtLeastOne | api/internal/store/integrations.go:87-104 | The trending score written after a download is at least 1. |
| Handlers.StoreErrorResponse | api/internal/http/handlers/integrations.go:92-102 | Status 409 exactly for the listen-path and name conflicts; every other store error is a 500 "failed to publish integration". |
| Handlers.IsIntegrationComposeFileIff | api/internal/http/handlers/integrations.go:292-301 | True exactly for the bare file name and for paths ending in "/docker-compose.integration.yml"; false for "". |
| Handlers.ValidateComposeFileContent | api/internal/http/handlers/integrations.go:262-290 | Checks in order: INTEGRATIONS_ROOT missing, then HOMENAVI_ROOT present, then unparsable, then no services, then some service with a blank image, which that service's name reports. Otherwise passes. |
| Handlers.ComposeContentPassMeans | api/internal/http/handlers/integrations.go:262-290 | Content that passes names INTEGRATIONS_ROOT and not HOMENAVI_ROOT, and parses to a non-empty services map with no blank image. |
| Handlers.ValidateComposeFileURL | api/internal/http/handlers/integrations.go:230-260 | Checks in order:<br>1. blank URL;<br>2. not http:// or https://;<br>3. wrong file name;<br>4. fetch failed;<br>5. non-2xx status;<br>6. unreadable body;<br>7. empty content;<br>8. the content rules. |
| Handlers.ComposeUrlPassMeans | api/internal/http/handlers/integrations.go:230-260 | A compose file that passes is an http(s) URL to the integration compose file, fetched with a 2xx status, whose content passes the content rules. |
| Handlers.ComposeUrlPassIsDetermined | api/internal/http/handlers/integrations.go:284-288 | The order in which the services map is visited never changes whether the compose file passes. |
| Handlers.MissingAmongIsFilter | api/internal/http/handlers/integrations.go:193-214 | The missing list is the names of the fields that are blank once trimmed, in the order id, name, version, listen_path, manifest_url, image, compose_file. |
| Handlers.CollectMissing | api/internal/http/handlers/integrations.go:193-214 | The append loop yields exactly the missing list. |
| Handlers.ValidatePublishRequest | api/internal/http/handlers/integrations.go:185-228 | Checks in order, each with its message:<br>1. missing fields, reported as "missing required fields: " and the names joined by ", ";<br>2. more than 5 images;<br>3. compose-file name;<br>4. the compose URL rules, on the trimmed value. |
| Handlers.ValidationPassIsDetermined | api/internal/http/handlers/integrations.go:185-228 | Whether a request passes validation is determined by its inputs alone. |
| Handlers.ValidatedFields | api/internal/http/handlers/integrations.go:186-216 | A request that passes has no required field blank once trimmed. |
| Handlers.ValidatedRequest | api/internal/http/handlers/integrations.go:185-228 | A request that passes has every required field, at most 5 images, and an http(s) compose URL to the integration file. That file was fetched and its content passes. |
| Handlers.BearerTokenNeverMissing | api/internal/http/handlers/integrations.go:303-316 | "missing bearer token" is never returned. An accepted header yields the non-empty trimmed text after its first 7 characters. |
| Handlers.BearerTokenAccepts | api/internal/http/handlers/integrations.go:303-316 | Any casing of "bearer", a space and a trimmed token yields that token. |
| Handlers.BearerTokenRejects | api/internal/http/handlers/integrations.go:304-310 | For every header: a header that is blank once trimmed is a "missing authorization header"; any other header whose trimmed value does not start, ignoring case, with "bearer " is an "invalid authorization header". |
| Handlers.TagFromClaims | api/internal/http/handlers/integrations.go:318-333 | Succeeds exactly when all of these hold:<br>- ref_type lowercases to "tag";<br>- ref starts with "refs/tags/";<br>- the rest of ref is not blank;<br>- the rest starts with the prefix, unless the prefix is blank.<br>The tag is ref without "refs/tags/". |
| Handlers.TagFromClaimsExample | api/internal/http/handlers/oidc_validation_test.go:43-56 | "refs/tags/v1.2.3" with prefix "v" gives "v1.2.3". |
| Handlers.NormalizeRepoURLStripsSuffix | api/internal/http/handlers/integrations.go:377-382 | For every trimmed URL `u + ".git"` the result is `u` lowercased with one trailing "/" removed; for every trimmed URL `u + "/"` not ending in ".git" the result is `u` lowercased. |
| Handlers.NormalizeRepoURLNotIdempotent | api/internal/http/handlers/integrations.go:377-382 | ".git" is removed before "/", so "b.git/" normalises to "b.git", and normalising twice differs from normalising once. |
| Handlers.ValidateOIDCRequest | api/internal/http/handlers/integrations.go:335-375 | Passes exactly when all of these hold:<br>- the repository claim is not blank;<br>- version and release_tag equal the tag;<br>- the normalised repo_url is non-empty and equals the normalised GitHub URL of the repository;<br>- manifest_url lies under the raw tree of the repository at the tag. |
| Handlers.ValidateOIDCRequestAcceptsOwnRepository | api/internal/http/handlers/oidc_validation_test.go:5-22 | A request bound to the token's repository and tag is accepted. |
| Handlers.ValidateOIDCRequestRejectsOtherRepository | api/internal/http/handlers/oidc_validation_test.go:24-41 | A request naming another repository is refused on repo_url. |
| Handlers.AuthorizeShortCircuits | api/internal/http/handlers/integrations.go:109-125 | Without a verifier: 503. Without a bearer token: 401, and the verifier is not consulted. A token that does not verify gives 401 "invalid oidc token", and the workflow is not consulted. |
| Handlers.AuthorizedMeans | api/internal/http/handlers/integrations.go:109-139 | The gate passes only with a verifier, a bearer token whose claims verified, a passed workflow and a tag from the claims. Its failures are 503, 401, 403 or 400. |
| Handlers.PublishOIDC | api/internal/http/handlers/integrations.go:109-183 | The store is written only after these pass, in this order:<br>1. the gate;<br>2. the JSON body (400);<br>3. request validation (400);<br>4. OIDC binding (400).<br>It is then written as `PublishIntegration` with verified = true, and conflicts map to 409. Every earlier failure leaves the table unchanged. |
| Handlers.Publish | api/internal/http/handlers/integrations.go:82-107 | The JSON body, then validation, then the store with verified = true. Conflicts are 409, other store errors 500, and earlier failures leave the table unchanged. |
| Oidc.Int64Of | api/internal/http/handlers/oidc.go:201 | The exponent is read as the int64 with the same low 64 bits as the value. |
| Oidc.Int64OfSmall | api/internal/http/handlers/oidc.go:201-204 | A value below 2^63 is read unchanged; 2^63 reads as negative, so such a key is dropped. |
| Oidc.KeysFromDomain | api/internal/http/handlers/oidc.go:188-206 | A kid has a key exactly when some entry for it has non-empty kid, n and e that decode, with a positive exponent. |
| Oidc.KeysFromLastWins | api/internal/http/handlers/oidc.go:189-205 | The key kept for a kid comes from the last usable entry for that kid. |
| Oidc.KeysFromIgnoresKtyAlgUse | api/internal/http/handlers/oidc.go:174-206 | kty, alg and use do not affect the key map. |
| Oidc.FetchSucceeds | api/internal/http/handlers/oidc.go:164-212 | A fetch succeeds exactly when a 200 answer decodes and some entry is usable; otherwise it fails, and a 200 answer that decodes but has no usable entry fails with "no jwks keys found". |
| Oidc.FetchJWKS | api/internal/http/handlers/oidc.go:158-213 | The filter loop returns exactly the fetch outcome. |
| Oidc.JwksCache.KeyForKID | api/internal/http/handlers/oidc.go:139-156 | The cache refreshes exactly when it holds no map or now is past the expiry. A successful fetch replaces the whole map and sets expiry = now + 30 min; a failed one returns its error and changes nothing. A kid absent from the map is "unknown kid". |
| Oidc.ApiHeaders | api/internal/http/handlers/oidc.go:111-115 | Accept and User-Agent are always sent. Authorization ("Bearer " + trimmed token) is sent exactly when the API token is not blank. |
| Oidc.Verifier.constructor | api/internal/http/handlers/oidc.go:54-62 | The verifier takes issuer, audience, workflow and token from the configuration, with an empty key cache. |
| Oidc.Verifier.Verify | api/internal/http/handlers/oidc.go:64-99 | Checks in order: a blank token, then a malformed token, then a missing kid, each rejected without touching the key cache. Success comes exactly when the key is found, the library accepts it, and repository, ref and sha are all non-empty; then the claims are returned. Past those checks, an expired or empty cache whose refetch succeeds holds the fetched keys and expires 30 minutes after `now`; in every other case the cache keeps its keys and expiry. |
| Oidc.Verifier.VerifyWorkflow | api/internal/http/handlers/oidc.go:101-137 | Without a workflow it fails and sends no request. Otherwise it sends the runs query for the commit. It passes exactly on a 200 answer that decodes with total_count ≥ 1; a non-200 answer gives "github api error". |
| Config.GetEnv | api/internal/config/config.go:41-46 | The trimmed value when not blank, otherwise the fallback. |
| Config.GetEnvTrimmed | api/internal/config/config.go:41-46 | With a trimmed, non-blank fallback, every setting read this way is trimmed and not blank. |
| Config.SplitCSV | api/internal/config/config.go:48-61 | Returns the CSV fields of the value. |
| Config.KeepTrimmed | api/internal/config/config.go:54-59 | The loop keeps the non-empty trims of the pieces, in order. |
| Config.CsvBlank | api/internal/config/config.go:49-51 | Blank or whitespace-only input gives no fields. |
| Config.TrimmedFieldsMembers | api/internal/config/config.go:52-60 | A field is kept exactly when it is the non-empty trim of some piece. |
| Config.TrimmedFieldsShape | api/internal/config/config.go:55-57 | Every field is non-empty and trimmed. |
| Config.CsvRoundTrip | api/internal/config/config.go:48-61 | Trimmed, non-empty, comma-free entries are read back, in order, from their comma-joined form. |
| Config.Load | api/internal/config/config.go:19-39 | Each getEnv setting (bind address, OIDC issuer, audience, workflow, tag prefix) is its default when the variable is unset or blank, else the trimmed value; DATABASE_URL and GITHUB_API_TOKEN are read raw; ALLOWED_ORIGINS goes through splitCSV. |
| Config.LoadDefaults | api/internal/config/config.go:20-27 | With nothing set, the defaults apply: ":8098", the GitHub issuer, "homenavi-marketplace", "verify.yml" and "v"; the origin list, database URL and API token are empty. |
| Cors.IsAllowed | api/internal/http/middleware/cors.go:29-39 | False for an empty origin or allowlist. Otherwise true exactly when some trimmed entry equals the origin, ignoring case. |
| Cors.CorsHeaders | api/internal/http/middleware/cors.go:16-19 | The four CORS headers; Allow-Origin echoes the origin. |
| Cors.Handle | api/internal/http/middleware/cors.go:12-27 | The headers are added exactly when the origin is allowed. OPTIONS gets 204 and next is not called; any other method calls next and writes no status. |
| Cors.UntrimmedOriginNeverAllowed | api/internal/http/middleware/cors.go:33-38 | The origin itself is not trimmed, so an origin starting with white space is never allowed. |
| Cors.AllowedIgnoresCase | api/internal/http/middleware/cors.go:33-38 | Origins equal ignoring case are allowed alike. |
| Cors.AllowedByEntry | api/internal/http/middleware/cors.go:33-38 | A trimmed entry allows itself, and adding entries never withdraws an origin. |
| Marketplace.ComputeStats | web/components/MarketplaceClient.tsx:16-20 | total is the number of items, verified the number of verified ones, and verified + community == total. |
| Marketplace.CommunityCountsUnverified | web/components/MarketplaceClient.tsx:16-20 | community is exactly the number of unverified items. |
| Marketplace.QueryEmptyIffBlank | web/components/MarketplaceClient.tsx:23 | The search text is empty exactly when the query is blank. |
| Marketplace.StagesKeepShown | web/components/MarketplaceClient.tsx:24-40 | The verification filter followed by the text filter keeps exactly the shown items, in input order. |
| Marketplace.FilteredIsPermutationOfShown | web/components/MarketplaceClient.tsx:22-49 | The list is a reordering of the input's shown items, with multiplicities. |
| Marketplace.FilteredMembers | web/components/MarketplaceClient.tsx:22-49 | An item is listed exactly when it is in the input and passes both the mode filter and the search. |
| Marketplace.BlankQueryShowsAll | web/components/MarketplaceClient.tsx:23-32 | With "all" and a blank query, the list is the whole input, reordered. |
| Marketplace.BeforeIsTotalPreorder | web/components/MarketplaceClient.tsx:42-46 | Given total-preorder comparisons, each sort's comparator is one. |
| Marketplace.FilteredIsSorted | web/components/MarketplaceClient.tsx:42-46 | "name" gives ascending names; otherwise versions are descending. |
| Marketplace.NameStartsHaystack | web/components/MarketplaceClient.tsx:34-37 | A non-empty lowercased name starts the searched text. |
| Marketplace.NameIsSearched | web/components/MarketplaceClient.tsx:33-38 | A search text found in the lowercased name shows the item. |
| Gallery.Next | web/components/ImageGallery.tsx:24 | Stays in [0, n): i goes to i + 1, the last image wraps to 0, and a closed viewer opens on 0. |
| Gallery.PreviousButton | web/components/ImageGallery.tsx:74 | Stays in [0, n): i goes to i - 1, 0 wraps to n - 1, and a closed viewer opens on 0. |
| Gallery.PreviousKey | web/components/ImageGallery.tsx:26-28 | Stays in [0, n): i goes to i - 1 and 0 wraps to n - 1. Closed, it would give n - 1. |
| Gallery.NextThenPrevious | web/components/ImageGallery.tsx:24-27 | ArrowRight then ArrowLeft, or next then previous, returns to the same image. |
| Gallery.PreviousThenNext | web/components/ImageGallery.tsx:24-27 | ArrowLeft then ArrowRight, or previous then next, returns to the same image. |
| Gallery.ImageGallery.constructor | web/components/ImageGallery.tsx:11 | The viewer starts closed. |
| Gallery.ImageGallery.Select | web/components/ImageGallery.tsx:51 | A thumbnail or dot click opens image i. |
| Gallery.ImageGallery.Close | web/components/ImageGallery.tsx:64 | The close button closes the viewer. |
| Gallery.ImageGallery.NextButton | web/components/ImageGallery.tsx:86-87 | The next button moves to Next; the index stays valid. |
| Gallery.ImageGallery.PreviousButtonClick | web/components/ImageGallery.tsx:73-74 | The previous button moves to PreviousButton; the index stays valid. |
| Gallery.ImageGallery.KeyDown | web/components/ImageGallery.tsx:15-34 | With the viewer closed, keys do nothing (no listener). Escape closes, ArrowRight is Next, ArrowLeft is PreviousKey, and any other key is ignored. |
| Card.VersionLabel | web/components/IntegrationCard.tsx:19-21 | A version starting with "v" is "v" followed by the label; any other version is shown unchanged. |
| Card.VersionLabelDropsOne | web/components/IntegrationCard.tsx:19-21 | Exactly one leading "v" is dropped. |
| Card.Cover | web/components/IntegrationCard.tsx:15 | The icon asset when non-empty, else the first image when non-empty, else empty. Empty exactly when both are missing or empty. |
| Card.OrDefault | web/components/IntegrationCard.tsx:46 | `text || fallback` on strings: a non-empty text is kept, an empty one gives the fallback, and the result is never empty when the fallback is not. |
| Card.Badges | web/components/IntegrationCard.tsx:69-91 | Verified exactly when verified, Community exactly when not, Featured exactly when featured. |
| Card.Render | web/components/IntegrationCard.tsx:45-84 | The card shows the name, listen path and downloads, with non-empty publisher and description labels; an empty publisher shows "Community" and an empty description "No description provided.". |
| Card.NoCoverShowsInitial | web/components/IntegrationCard.tsx:57-61 | With no icon asset and no images, the card shows the name's uppercased first letter. |
| Card.CoverShownAsImage | web/components/IntegrationCard.tsx:57-61 | A cover that is not an "fa:" icon is shown as an image. |
| Icon.FirstLetter | web/components/IntegrationIcon.tsx:29 | "" for "", otherwise the first code point uppercased. |
| Icon.Resolve | web/components/IntegrationIcon.tsx:14-32 | A Font Awesome icon exactly for "fa:" plus a known key (lowercased). Any other non-empty icon is an image of that source. The fallback letter shows exactly when the icon is empty. |
| Icon.FaKeyIgnoresCase | web/components/IntegrationIcon.tsx:15-21 | Any casing of a known key after "fa:" gives that icon. |
| Icon.UnknownFaKeyIsImage | web/components/IntegrationIcon.tsx:15-25 | An unknown "fa:" key falls through to an image whose source is the icon text. |
| Icon.SpotifyAnyCase | web/components/IntegrationIcon.tsx:3-17 | "fa:Spotify" resolves to the spotify icon. |

## Left out

- **Network I/O.** These are parameters holding their outcome, not calls:
  - the compose-file GET, its 6-second timeout and 512 KiB read cap;
  - the JWKS request;
  - the GitHub API request;
  - the web client's fetch of the list.
- **JWT and crypto.** The JWT library's parsing, RS256 restriction, signature, issuer, audience and expiry checks become one verdict `accepts` plus a parsed view of the token. Base64url decoding is an abstract partial function. RSA key construction is reduced to the (n, e) pair.
- **YAML and JSON.** YAML parsing of the compose file is an abstract parser from text to a services map. JSON decoding of request bodies and API answers is an input, and the manifest, images and assets JSON are opaque values.
- **Concurrency and transactions.** Not modelled:
  - the key-cache mutex;
  - transaction begin, rollback and panic recovery, and isolation.

  Each publish and each download is one sequential step on the table. The availability checks run before the write in the same step, so races between concurrent publishes are not modelled.
- **Clock.** `time.Now` is a parameter `now` in seconds. All clock reads within one call are taken as the same instant: the expiry test and the new expiry of the key cache (api/internal/http/handlers/oidc.go:143 and :149), and the 7-day window and `updated_at` of a download (api/internal/store/integrations.go:94 and :105). The cache's `expires == now + CacheLifetime` and `Store.TrendingAtLeastOne` rely on this.
- **Integer width and floats.**
  - The trending score is a float64 in the source but only ever holds an integer count, so it is an `int`.
  - Downloads are bounded by int64 (an overflowing increment fails and rolls back).
  - The JWK exponent's conversion from int64 to int is taken as lossless (64-bit int).
- **Logging.** All log lines are left out.
- **Plumbing.** Routing, server start-up, database setup and migrations are left out. The server routes List, Get, Versions and PublishOIDC; `Publish` and `IncrementDownloads` have no route but are modelled anyway. The List, Get and Versions HTTP wrappers (query-parameter parsing and 400/404/500 mapping, api/internal/http/handlers/integrations.go:24-66) are not modelled; the store operations they call are.
- **Store errors.** A failure of the database itself (connection, constraint or commit errors) is not modelled. Every store error other than the two conflicts is 500 in `StoreErrorResponse`, but only the empty listen path, NotFound and the overflow arise in the model.
- **SQL text order.** `ORDER BY name`/`version` is code-point lexicographic order (`LexLe`); collations other than the C/binary one are not modelled. Rows that tie under the order may come in any order, so only sortedness and the set of rows are stated.
- Marketplace.Filtered: `localeCompare`, plain for names and numeric for versions, is the pair of parameters `nameLe` and `versionLe`; the sort results are stated for any total preorders. The stable, copying sort is modelled as a function on values, so the input array is trivially left unchanged.
- Icon.FirstLetter: JavaScript's `slice(0, 1)` takes one UTF-16 code unit while the model's strings are sequences of code points, so a fallback starting outside the Basic Multilingual Plane (an emoji, say) shows a lone high surrogate in the source and the whole character in the model.
- **Case mapping.** `strings.ToLower`, `strings.EqualFold`, JavaScript's `toLowerCase`/`toUpperCase` and localeCompare's case handling map ASCII letters only. Go's `TrimSpace` and JavaScript's `trim` are modelled with their own white-space sets.
- **Absent optional fields.** Absent optional props and fields of the web client (icon, publisher, description, assets, images) are modelled as "" or empty collections.
- Icon.Resolve: the lookup in `faIconMap` is modelled as membership in the set {"spotify"}. A key inherited from `Object.prototype` such as "constructor" would be a truthy lookup in JavaScript; that is not modelled.
- **The web Integration type** lacks `downloads` and `featured` in web/lib/api.ts, but the card reads them; they are taken from the API row.
- **Gallery without images.** The gallery renders nothing without images; this is the predicate `Renders`. Rendering itself (React, JSX, styles, router navigation, `encodeURIComponent`) is left out.
- **Go map iteration order.** The order in which `validateComposeFileContent` visits services is unspecified. The model picks any service, so with several image-less services the message may name any of them. Whether the check passes does not depend on the order (`Handlers.ComposeUrlPassIsDetermined`).
- **Download events.** The downloads endpoint records its events itself.
- Oidc.Verifier.VerifyWorkflow: a failure to build the GitHub request (`http.NewRequestWithContext`, api/internal/http/handlers/oidc.go:107-110) is not modelled; a configured workflow always yields the request.
