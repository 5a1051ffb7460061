# FeedBar ingestion core in Dafny

This project models the feed-ingestion logic of the FeedBar server (TypeScript, Netlify functions). It covers four pieces:

- **Entry normaliser** (`src/rss.ts`, `fetchFeed`). A parsed RSS/Atom entry becomes a `CleanItem`. The title gets a default. Author and summary come from fallback chains. The image comes from a four-step first-hit chain. Entries without a link are dropped.
- **Ingest run** (`netlify/functions/ingest.ts`). Each `CleanItem` of an active feed becomes an `items` row:
  - when the parser found no image, the row's image is taken from the summary's first `<img src="…">`;
  - the summary is tag-stripped and cut to 200 characters.
  Rows are upserted keyed on `url`; an existing row is never changed. The feed's `last_fetched_at` is touched only when its fetch produced items. At the end, items published more than three days ago are deleted. With no active feed, the handler returns before the cleanup.
- **Icon choice** (`src/icons.ts`, `getBestIcon`). Link precedence is apple-touch-icon, then apple-touch-icon-precomposed, then icon, then shortcut icon. A relative `href` is resolved against the site origin. Without a usable link, or when the page fetch fails, the result falls back to `origin/favicon.ico`.
- **Read API mapping** (`netlify/functions/manifest.ts`). Each joined item row becomes a response record. Missing fields get defaults. The display domain is the feed's hostname with its first `www.` removed.

JavaScript's `||` treats `""` like a missing value. Every optional string is an `Option<string>`, and `Values.Truthy` is the test that `||` and `if (x)` perform on it. `Values.FirstTruthy` is the reference definition of a first-hit chain ending in null. Two sets of chains are proved equal to it:

- the normaliser's author and summary chains;
- the read API's `image_url` and `category`.

The normaliser's image chain and the icon chooser agree with `FirstTruthy` on whether the result is truthy, and on its value whenever it is. When their result is falsy it may be `""` rather than null, as in the source. A present media element with an empty URL overwrites the image with `""`, and `icon || shortcut` yields `""` when the shortcut `href` is empty.

The defaults that end in a literal (`x || 'Untitled'` and the like) are stated directly as conditionals.

Files, one module each:

- `values.dfy`: `Option`, truthiness and `FirstTruthy`.
- `rss.dfy`: the entry normaliser.
- `html_scan.dfy`: the two regular expressions of the row builder, written as explicit scanners.
- `ingest.dfy`: the row builder, and the `Store` class whose `items` and `feeds` maps are the two tables.
- `icons.dfy`: the icon choice and URL resolution.
- `manifest.dfy`: the read-API record mapping.

The image regex `/<img[^>]+src="([^">]+)"/` is specified by `HtmlScan.ImgMatch`. The engine reports the leftmost `<img`. Because `[^>]+` is greedy, it then takes the last `src="…"` before the tag's first `>`. So for `<img data-src="a" src="b">` the image is `b`. `FirstImgSrcIsFirstMatch` proves the scanner returns exactly that capture.

The tag stripper `/<[^>]*>?/gm` removes everything from each `<` up to and including the next `>`. When no `>` follows, it removes the rest of the text.

The run calls `fetchFeed` through the parameter `fetch` (type `Ingest.Fetcher`): the items of the feed at a URL, or None when the fetch failed. For the modelled normaliser it is `u => Rss.FetchFeed(parse(u), now)`. The run's contracts hold for every such function, and `Ingest.ProducedIffLinked` ties its skip test to `Rss.FetchFeed`.

The upsert is `Ingest.Inserted`: rows are taken in order, and a URL that is already stored is skipped. Duplicates within one batch therefore keep their first row. The run processes active feeds one after another in an order it chooses, and the ghost result `order` records that order. The final items table is `Retained(Inserted(old items, rows of the feeds in that order), now)`.

## Model

| member | source | states |
|---|---|---|
| `Values.FirstTruthy` | src/rss.ts:53-54 | a chain of JavaScript `or` fallbacks ending in null: the first non-empty candidate, with no earlier non-empty one, or None exactly when every candidate is missing or empty |
| `Rss.PickImage` | src/rss.ts:43-46 | a non-empty enclosure URL wins over the media elements; otherwise the image is non-empty exactly when some media URL is, and then it is the first non-empty one; it is null only when the enclosure is empty and no media element is present |
| `Rss.Normalise` | src/rss.ts:48-56 | title is the entry title, or `Untitled` exactly when that title is missing or empty, and is never empty; url is non-empty exactly when the link is; published time is the ISO date or else `now`; author is creator, then author, then null; summary is contentSnippet, then content, then contentEncoded, then null; the image comes from the chain |
| `Rss.NormaliseAll` | src/rss.ts:41-56 | one normalised item per entry, at the same position |
| `Rss.DropUnlinked` | src/rss.ts:57 | keeps exactly the items whose URL is non-empty, and is never longer than its input |
| `Rss.DropUnlinkedKeepsCopies` | src/rss.ts:57 | every item with a non-empty URL survives as many times as it occurs in the input, and an item with an empty URL never survives |
| `Rss.DropUnlinkedKeepsOrder` | src/rss.ts:57 | the kept items are a subsequence of the input, so their order is kept |
| `Rss.FetchFeed` | src/rss.ts:37-61 | null exactly when the parse failed; otherwise the linked items among the normalised entries, in order. It is no longer than the entries, every item has a non-empty URL, and an entry's item is present exactly when the entry has a non-empty link |
| `Rss.FetchFeedNonEmpty` | src/rss.ts:41-57 | a parsed feed gives a non-empty list exactly when at least one entry has a non-empty link |
| `Rss.FetchFeedKeepsOrder` | src/rss.ts:41-57 | the returned items are a subsequence of the normalised entries, in input order |
| `HtmlScan.CaptureEnd` | netlify/functions/ingest.ts:28 | `src="([^">]+)"` matches at a position exactly when the returned closing quote is its end |
| `HtmlScan.LastSrc` | netlify/functions/ingest.ts:28 | greedy `[^>]+`: returns the largest attribute position in range that matches, and None only when none matches |
| `HtmlScan.FindImg` | netlify/functions/ingest.ts:28 | returns the leftmost `<img` start that has a match, with its greedy attribute position; None only when no match starts at or after the given index |
| `HtmlScan.BodyBound` | netlify/functions/ingest.ts:28 | the `[^>]+` of a match from a given `<img` ends no later than the tag's first `>` |
| `HtmlScan.FirstImgSrc` | netlify/functions/ingest.ts:28-31 | None exactly when the pattern matches nowhere; a found source is non-empty and holds no `"` or `>` |
| `HtmlScan.FirstImgSrcIsFirstMatch` | netlify/functions/ingest.ts:28-30 | the source found is the capture of the leftmost, greedy match |
| `HtmlScan.StripTags` | netlify/functions/ingest.ts:40 | the stripped text contains no `<` and is no longer than the input |
| `HtmlScan.StripTagsOfPlainText` | netlify/functions/ingest.ts:40 | text without `<` is left unchanged |
| `HtmlScan.StripTagsIdempotent` | netlify/functions/ingest.ts:40 | stripping twice is the same as stripping once |
| `HtmlScan.StripTagsKeepsLeadingText` | netlify/functions/ingest.ts:40 | text before the first `<` is kept verbatim, in front of the stripped rest |
| `HtmlScan.StripTagsDropsTag` | netlify/functions/ingest.ts:40 | a `<` followed by a `>` is removed together with everything between them and the `>` itself; the text after the `>` is kept and stripped in turn |
| `HtmlScan.StripTagsDropsUnclosed` | netlify/functions/ingest.ts:40 | a `<` with no `>` after it removes everything from the `<` to the end of the text |
| `HtmlScan.CleanSummary` | netlify/functions/ingest.ts:40 | the stored summary has no `<`, is at most 200 characters long, is the prefix of the stripped summary, and is cut only when the stripped summary is longer than 200 |
| `Ingest.RowImage` | netlify/functions/ingest.ts:24-32 | a non-empty parser image is never replaced; without one, a summary whose `<img>` pattern matches supplies the first match; the image changes only from missing or empty to non-empty |
| `Ingest.BuildRow` | netlify/functions/ingest.ts:34-42 | the row carries the feed's id and the item's url, title, time and author; its summary is present exactly when the item's is, and is then the cleaned summary (no `<`, at most 200 characters) |
| `Ingest.BuildRows` | netlify/functions/ingest.ts:21-43 | one row per item, in order, and every row carries the feed's id |
| `Ingest.InsertedRowsFromBatch` | netlify/functions/ingest.ts:46 | the upsert (`Inserted`, rows taken in order, a stored URL skipped) only stores rows of the batch: a URL that was not stored before holds one of the batch's rows |
| `Ingest.InsertedKeepsExisting` | netlify/functions/ingest.ts:46 | the upsert never changes a stored row, and the stored URLs afterwards are the old ones plus those of the batch |
| `Ingest.InsertedFirstWins` | netlify/functions/ingest.ts:46 | for a URL not stored before, the first row of the batch with that URL is the one stored |
| `Ingest.InsertedStoredIsNoOp` | netlify/functions/ingest.ts:46 | a batch whose URLs are all stored changes nothing |
| `Ingest.InsertedIdempotent` | netlify/functions/ingest.ts:46 | repeating the same upsert is a no-op |
| `Ingest.InsertedAppend` | netlify/functions/ingest.ts:46 | two upserts in a row equal one upsert of both batches |
| `Ingest.InsertedKeyedByUrl` | netlify/functions/ingest.ts:46 | after the upsert every row still sits under its own URL, so there is at most one row per URL |
| `Ingest.Retained` | netlify/functions/ingest.ts:54-60 | a row survives the cleanup exactly when its time is not strictly before `now` minus three days, and it survives unchanged |
| `Ingest.RetainedIdempotent` | netlify/functions/ingest.ts:54-60 | a second cleanup at the same time deletes nothing more |
| `Ingest.RunKeepsFreshRows` | netlify/functions/ingest.ts:46-60 | after upsert and cleanup, a stored row inside the window survives unchanged, every remaining row is inside the window, and no URL appears that was neither stored nor in the batch |
| `Ingest.ActiveIds` | netlify/functions/ingest.ts:9-12 | the selected feeds are exactly those with `is_active` set |
| `Ingest.FeedRows` | netlify/functions/ingest.ts:18-43 | a failed fetch contributes no rows; otherwise the rows built from the fetched items; every row carries the feed's id |
| `Ingest.ProducedIffLinked` | netlify/functions/ingest.ts:18-19 | the `!items?.length` skip (`Produced`), with the fetch being the modelled `fetchFeed`: a feed produces items exactly when its parse succeeded and one of its entries has a non-empty link |
| `Ingest.SilentFeedWritesNothing` | netlify/functions/ingest.ts:18-19 | a feed contributes no rows exactly when its fetch gave null or zero items |
| `Ingest.AllRows` | netlify/functions/ingest.ts:17-50 | the rows of the whole run, feed after feed in the processing order: every row carries the id of a feed in that order |
| `Ingest.AllRowsHasProducer` | netlify/functions/ingest.ts:17-50 | every feed in the order whose fetch produced items has at least one row in the run's rows |
| `Ingest.Touched` | netlify/functions/ingest.ts:49 | touching sets `last_fetched_at` to `now` and keeps url and `is_active` |
| `Ingest.TouchAll` | netlify/functions/ingest.ts:49 | the touched feeds have `last_fetched_at` set; every other feed row is unchanged; no feed appears or disappears |
| `Ingest.TouchAllStep` | netlify/functions/ingest.ts:49 | touching one more feed changes only that feed's row |
| `Ingest.ProducingIds` | netlify/functions/ingest.ts:17-19 | the feeds the run touches are exactly the active feeds whose fetch produced at least one item |
| `Ingest.Store.Upsert` | netlify/functions/ingest.ts:46 | the items table becomes the in-order insert-if-absent of the rows, and the feeds table is unchanged |
| `Ingest.Store.Touch` | netlify/functions/ingest.ts:49 | only the given feed's row gets the new `last_fetched_at`, and an unknown id changes nothing |
| `Ingest.Store.Cleanup` | netlify/functions/ingest.ts:52-60 | the items table becomes the rows inside the three-day window, and the feeds table is unchanged |
| `Ingest.Store.ProcessFeed` | netlify/functions/ingest.ts:17-50 | the feed's rows are upserted; the feed is touched only if its fetch produced items; a null or empty fetch changes nothing |
| `Ingest.Store.RunIngest` | netlify/functions/ingest.ts:5-64 | every active feed is processed exactly once; with no active feed nothing changes and the cleanup is skipped; otherwise the items table is the cleanup of the upsert of all feeds' rows, and the feeds table has exactly the producing active feeds touched |
| `Icons.ChooseHref` | src/icons.ts:15-27 | the chosen href is non-empty exactly when some link is, and it is then the first non-empty one in the order apple-touch-icon, precomposed, icon, shortcut icon |
| `Icons.ResolveHref` | src/icons.ts:29-38 | `//x` becomes `https://x`; `/p` becomes origin + `/p`; any other href not starting with `http` becomes origin + `/` + href; an href starting with `http` is kept; in every case the href is a suffix of the result |
| `Icons.ResolvedIsAbsolute` | src/icons.ts:30-38 | against an `http` origin, every resolved href starts with `http` |
| `Icons.ResolveIdempotent` | src/icons.ts:30-38 | against an `http` origin, resolving a resolved href changes nothing |
| `Icons.BestIcon` | src/icons.ts:4-51 | null exactly when the site URL does not parse; `origin/favicon.ico` when the page fetch failed or no link is usable; otherwise the chosen link, resolved |
| `Manifest.FeedInfoOf` | netlify/functions/manifest.ts:36 | an array relation gives its first element; a single object gives itself; a missing relation or an empty array gives nothing |
| `Manifest.RemoveFirstWww` | netlify/functions/manifest.ts:41 | a host without `www.` is kept; otherwise exactly the first occurrence of `www.` is cut out, wherever it is |
| `Manifest.RemoveLeadingWww` | netlify/functions/manifest.ts:41 | a leading `www.` is removed |
| `Manifest.RemoveFirstWwwLength` | netlify/functions/manifest.ts:41 | the domain is never longer than the host, and at most four characters shorter |
| `Manifest.SourceDomain` | netlify/functions/manifest.ts:38-43 | `news.source` when the feed has no URL; `source.com` when its URL does not parse; otherwise the hostname with its first `www.` removed |
| `Manifest.ToRecord` | netlify/functions/manifest.ts:49-59 | id and published_at pass through; title, url, feed_id and source_name default to `Untitled`, `#`, the all-zero UUID and `General News`, and are never empty; category and image_url are null or non-empty |
| `Manifest.ToRecords` | netlify/functions/manifest.ts:34-60 | one record per row, in the same order; a null result gives no records |

## Left out

- Fetching and XML parsing (rss-parser, its timeout and headers) are not modelled. The parsed entries, or None when `parseURL` threw, are an input.
- A media element whose URL attribute is missing is modelled the same as a missing element. In the source it overwrites the image with `undefined`. Both values are falsy, and the manifest maps them to null.
- A media element without attributes makes the source throw, so `fetchFeed` returns null for the whole feed. This is not modelled.
- Dates use integer millisecond timestamps. `isoDate` is given as the instant it denotes, with None for a missing or empty date. An unparsable date is not modelled: in the source it would make `toISOString` throw and abort that feed's task.
- All clock reads (`new Date()` in the normaliser, the touch and the cleanup) are the single parameter `now`.
- The local-calendar `setDate(-3)` is a fixed three-day window, so daylight-saving shifts are not modelled.
- `substring(0, 200)` counts UTF-16 code units. The model counts Dafny characters.
- Page fetching and HTML parsing for icons (axios, cheerio) are not modelled. The four `href`s are inputs, and a failed fetch is None.
- `new URL(...).origin` and `.hostname` are the function parameters `originOf` and `hostOf`, with None when the URL does not parse.
- The Supabase client, queries, `order`/`limit 100` and the HTTP response envelope are not modelled.
- Store-write errors are not modelled. In the source, a failed upsert writes nothing, and the feed is still touched afterwards. The tables are in-memory maps, and the read API takes the query's rows as input.
- `Promise.allSettled` runs the feeds concurrently. The model runs them sequentially in an unspecified order. When two feeds in one batch produce the same URL, which row is stored depends on that order.
- Logging is not modelled.
- The deprecated stubs `netlify/functions/_deprecated.ts`, `netlify/functions/ingest-background.ts` and `netlify/functions/updateicons.ts` only return a constant 410 response. `src/supabase.ts` only builds the client.
- Ingest.Store.RunIngest: uses one `now` for every feed's touch and for the cleanup cut-off. The source reads the clock separately at each point.
