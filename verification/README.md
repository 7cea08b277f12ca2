# Sunbiz corporation scraper and its Telegram front end, modelled in Dafny

The scraper searches the Florida corporation registry (search.sunbiz.org) for an
entity name. It walks the "Next List" chain of result pages and opens each
entity's detail page. It keeps an entity only if:

- one of its address sections holds a physical address, not empty and not a PO Box;
- its "Principal Address" is non-empty (it need not be the physical one: a PO
  Box Principal Address passes when, say, the Mailing Address is a street
  address, and that PO Box is what the list then holds);
- the normalized Principal Address has not been seen before, in this run or in
  an earlier one for the same term.

It stops once `max_results` entities are kept. It writes the kept addresses to a
`<term><count>.txt` list and saves the seen addresses, sorted, one per line.

The Telegram bot reads messages of the form `<keyword> [count]`, clamps the
count and queues a job. A worker takes jobs in order, runs the fetch with that
keyword's own seen file, and sends back the address list or a "nothing found"
message.

The browser is replaced by a `Web` value: for a search URL, the finite chain of
result pages (each a sequence of table rows); for a detail URL, the page's
detail sections. The PO-Box regular expression and the URL percent-encoder are
parameters. Files are a map from path to content.

Modules:

| file | module | what it holds |
|---|---|---|
| wrappers.dfy | `Wrappers` | `Option`, `Result`, `Min`, `Max` |
| strings.dfy | `Strings` | the Python string built-ins the code relies on: `isspace`, `split()`, `strip()`, `" ".join`, `replace`, `lower()` on ASCII, `int()`, `str(n)`, code-point order |
| address_classifier.dfy | `AddressClassifier` | `_normalize_address`, `_is_po_box_or_empty`, `_has_valid_address` |
| page_extractor.dfy | `PageExtractor` | `_extract_detail_sections`, `_extract_search_results`, `_get_next_list_url`, detail-URL resolution |
| seen_store.dfy | `SeenStore` | `splitlines()`, reading the seen file, `sorted(seen)`, writing the seen file |
| scrape_loop.dfy | `ScrapeLoop` | the page and row loops of `fetch_sunbiz_data` with the cap, filters and de-duplication |
| sunbiz_fetch.dfy | `SunbizFetch` | `build_search_url`, `fetch_sunbiz_data` end to end, the address list |
| bot_requests.dfy | `BotRequests` | message parsing and clamping, per-keyword file names, `get_config` |
| job_queue.dfy | `JobQueue` | `request_queue` with `queue_size`, `handle_message`, `run_fetch_sync`, `queue_worker` |

The scrape loop is specified once, by `RunRows` and `RunPages`, over a
`Setting`. A `Setting` holds the cap and three filters as function values:

- how a detail URL becomes its sections;
- which sections are accepted;
- which key an accepted record is de-duplicated on.

`Reading(web, cap, poBox)` is the setting the scraper uses: sections read off
the detail page, accepted by `ValidAddressIn` and a non-empty Principal
Address, and keyed by the normalized Principal Address. The loop lemmas hold
for every setting. The fetch-level lemmas instantiate them with `Reading`.

## Verifying

All files are verified together with Dafny 4.11. Each proof stays within a
resource limit of 2,000,000 per proof obligation, with no time limit:

    dafny verify --resource-limit 2000000 --verification-time-limit 0 --warn-contradictory-assumptions *.dfy

## Model

| member | source | states |
|---|---|---|
| Strings.Split | main.py:45 | `split()` yields whitespace-free non-empty tokens, and none exactly when the text is all whitespace |
| Strings.StripFacts | main.py:38 | `strip()` is empty exactly when the text is all whitespace; otherwise it starts and ends with a non-space |
| Strings.StripSlice | main.py:75-76 | `strip()` is a contiguous slice of the text with only whitespace cut off on either side |
| Strings.SplitStrip | telegram_bot.py:107-108 | splitting the stripped text gives the same tokens as splitting the text |
| Strings.SplitJoin | main.py:45 | splitting tokens joined by single spaces gives the tokens back |
| Strings.ParseNatToString | telegram_bot.py:113 | `int()` of the decimal numeral of `n` is `n` |
| Strings.LessTotal | main.py:189 | the code-point order used by `sorted` is total |
| Strings.LessTransitive | main.py:189 | the code-point order used by `sorted` is transitive |
| AddressClassifier.NormalizeJoinsWords | main.py:43-45 | a normalized address is its whitespace-separated words joined by single spaces |
| AddressClassifier.NormalizeOneLine | main.py:43-45 | a normalized address has no `\n`, no space at either end, no two spaces in a row |
| AddressClassifier.NormalizeEmpty | main.py:43-45 | the normalized address is empty exactly when the address is blank |
| AddressClassifier.NormalizeSameWords | main.py:43-45 | two addresses normalize alike exactly when they have the same words, i.e. differ only in spacing and line breaks |
| AddressClassifier.NormalizeIdempotent | main.py:43-45 | normalizing twice is normalizing once |
| AddressClassifier.IsPoBoxOrEmpty | main.py:36-40 | blank text is a PO Box without consulting the pattern; other text is one exactly when the pattern matches |
| AddressClassifier.HasValidAddress | main.py:48-54 | the scan finds a section exactly when some key containing "address" in any case has a non-empty value that is not a PO Box |
| PageExtractor.SectionsKeys | main.py:68-79 | a label is present exactly when some block has at least two spans and that non-empty stripped label |
| PageExtractor.SectionsLastWins | main.py:68-79 | for a repeated label the stripped second span of the last such block wins |
| PageExtractor.ExtractDetailSections | main.py:68-79 | the loop builds exactly the sections of the page |
| PageExtractor.RowsMembers | main.py:82-102 | a row is kept exactly when some table row has at least three cells and a link and yields it |
| PageExtractor.RowsConcat | main.py:82-102 | each table row is kept or dropped on its own, in table order |
| PageExtractor.ExtractSearchResults | main.py:82-102 | the loop builds exactly the kept rows, in table order |
| PageExtractor.ResolveUrl | main.py:145 | a path starting with "/" becomes exactly `BASE_URL` (https://search.sunbiz.org) followed by the path, and any other link is kept as is; the result never starts with "/" |
| PageExtractor.ResolveUrlIdempotent | main.py:145 | resolving a resolved URL changes nothing |
| PageExtractor.NextListUrl | main.py:57-65 | a next URL exists exactly when there is a "Next List" link with a non-empty target; it is that target resolved |
| SeenStore.Lines | main.py:130 | `splitlines()` yields lines without line boundaries |
| SeenStore.LinesJoin | main.py:130 | lines joined by "\n" split back into those lines when none is empty or holds a boundary |
| SeenStore.LoadStorable | main.py:130 | every address read from a seen file is non-empty, stripped and on one line, so it can be written back unchanged |
| SeenStore.LoadJoin | main.py:130 | reading a file of storable lines gives exactly the set of those lines |
| SeenStore.NormalizedStorable | main.py:156 | a normalized non-blank address can be stored in the seen file |
| SeenStore.Least | main.py:189 | the scan finds the least element of a non-empty set |
| SeenStore.SortAddresses | main.py:189 | selection by least element produces `sorted(seen)` |
| SeenStore.SortedSeqElements | main.py:189 | `sorted(seen)` holds each element of `seen` exactly once |
| SeenStore.SortedSeqIncreasing | main.py:189 | `sorted(seen)` is strictly increasing |
| SeenStore.LoadSave | main.py:188-189 | writing a set of storable addresses and reading the file back gives the same set |
| ScrapeLoop.ConsiderRow | main.py:141-168 | one row of the inner loop, as imperative code, matches the specification of a row |
| ScrapeLoop.CrawlRows | main.py:141-168 | the inner `for row in rows` loop computes `RunRows` on one page's rows |
| ScrapeLoop.CrawlPages | main.py:132-174 | the nested page and row loops compute `RunPages` on the chain of result pages |
| ScrapeLoop.RunRowsCap | main.py:141-143 | the row loop never lets the results exceed the cap |
| ScrapeLoop.RunPagesCap | main.py:136-171 | the page loop never lets the results exceed the cap |
| ScrapeLoop.RunPagesVisits | main.py:170-174 | at most all pages are opened; fewer only when the cap is met; all of them without a cap |
| ScrapeLoop.RunPagesStopsAtCap | main.py:170-171 | a further page is opened only while the cap is not yet met |
| ScrapeLoop.KeepSound | main.py:156-168 | appending an accepted record with a new key keeps keys distinct, outside the initial seen set, and the progress counts 1..n |
| ScrapeLoop.ConsiderSound | main.py:151-168 | one row keeps the soundness invariant |
| ScrapeLoop.RunRowsSound | main.py:141-168 | the row loop keeps the soundness invariant |
| ScrapeLoop.RunPagesSound | main.py:136-174 | the page loop keeps the soundness invariant: accepted records, distinct keys not in the initial seen set, seen = initial + keys, progress 1..n |
| ScrapeLoop.RunRowsOrder | main.py:141-166 | the results extend the earlier results by records of the page's rows, in row order |
| ScrapeLoop.RunPagesOrder | main.py:136-174 | the results are the records of some of the rows on the result pages actually opened (the first `visited` pages of the chain), in the order the rows were met |
| ScrapeLoop.PoBoxPrincipalAccepted | main.py:151-155 | the address filter needs only SOME address section to be physical: a page whose Principal Address is a PO Box is accepted when another address section is a street address, and the PO Box becomes the record's address |
| ScrapeLoop.RunRowsGrows | main.py:157-159 | the row loop only adds to the seen set |
| ScrapeLoop.RunPagesGrows | main.py:157-159 | the page loop only adds to the seen set |
| ScrapeLoop.RunRowsCovers | main.py:151-159 | without a cap, afterwards every accepted row of the page has its key in the seen set |
| ScrapeLoop.RunPagesCovers | main.py:136-159 | without a cap, afterwards every accepted row of every page has its key in the seen set |
| ScrapeLoop.RunRowsIdle | main.py:157-158 | rows whose accepted keys are all seen change nothing |
| ScrapeLoop.RunPagesIdle | main.py:157-158 | pages whose accepted keys are all seen change nothing |
| SunbizFetch.SearchUrlInjective | main.py:22-30 | two terms give the same search URL exactly when they encode alike |
| SunbizFetch.SearchUrlAbsolute | main.py:22-30 | a search URL starts with the site origin and resolves to itself |
| SunbizFetch.TermOrDefault | main.py:123 | the term used is the given one unless that is missing or empty, then "PLUMBER"; never empty |
| SunbizFetch.TermClean | main.py:179 | the cleaned term holds no space |
| SunbizFetch.RenderTxt | main.py:182-186 | the writing loop produces the address-list content |
| SunbizFetch.TxtLines | main.py:182-186 | the address list has one newline-terminated line per record with a non-empty Principal Address |
| SunbizFetch.FetchSunbizData | main.py:105-191 | the whole fetch computes `Fetch`: search URL, seen file read, crawl, address list, seen file written |
| SunbizFetch.FetchCap | main.py:142-171 | with `max_results = n` at most `n` records are returned |
| SunbizFetch.FetchVisits | main.py:136-174 | result pages are opened only until the cap is met: every page before the last one opened left fewer than `max_results` records, the crawl stops early only with the cap met, and without a cap it opens all of them |
| SunbizFetch.FetchSound | main.py:151-168 | every record has a physical address and a non-empty Principal Address; normalized addresses are distinct and new; seen grows by exactly them; progress is 1, 2, 3, ... |
| SunbizFetch.FetchOrder | main.py:141-166 | records are the records of some of the rows on the result pages the fetch opened, each read off its own detail page, in the order their rows were met |
| SunbizFetch.FetchTxt | main.py:179-186 | the address list is written as `<term><count>.txt` beside the output file, one line per record |
| SunbizFetch.AddressKeyStorable | main.py:153-156 | the normalized non-empty Principal Address can be stored in the seen file |
| SunbizFetch.SeenStorable | main.py:156-159 | the final seen set can be stored when the initial one came from a file |
| SunbizFetch.FetchSeenSaved | main.py:188-189 | reading the seen file back after a fetch gives the seen set the fetch ended with |
| SunbizFetch.FetchRerunFindsNothing | main.py:126-159 | an uncapped search run again on the files a fetch left returns no record |
| BotRequests.Clamp | telegram_bot.py:118 | the count is at most the limit, at least 1 when the limit is, and unchanged when already in range |
| BotRequests.ParseIgnored | telegram_bot.py:105-110 | a message is ignored exactly when it has no text or only whitespace |
| BotRequests.ParseTokens | telegram_bot.py:107-118 | keyword = first token; count = second token as an integer, 100 when absent, clamped; a non-integer second token gives only the usage reply |
| BotRequests.ParseEnqueueBounds | telegram_bot.py:111-118 | a queued keyword is one whitespace-free token and the count lies in 1..limit |
| BotRequests.ParseIgnoresExtra | telegram_bot.py:108-113 | tokens after the second do not change the request |
| BotRequests.ParseDefaultCount | telegram_bot.py:113 | a keyword alone asks for min(100, limit) |
| BotRequests.ParseCount | telegram_bot.py:113-118 | "keyword n" with n within the limit asks for exactly n |
| BotRequests.WorkerCapIdempotent | telegram_bot.py:66 | the worker's second cap leaves an already clamped count unchanged |
| BotRequests.SeenPathFor | telegram_bot.py:73-74 | the seen file sits in the data directory, ends in "_seen.txt" and has no space in its name |
| BotRequests.SeenPathShared | telegram_bot.py:73-74 | two keywords share a seen file exactly when they clean to the same name |
| BotRequests.TxtPathApart | telegram_bot.py:72-74 | the address list never lands on a keyword's seen file or on the JSON output |
| BotRequests.Absolute | telegram_bot.py:34 | an absolute data directory is kept; a relative one `d` becomes exactly the bot's directory, then "/", then `d` |
| BotRequests.GetConfig | telegram_bot.py:27-35 | a missing file is an error; a returned token is stripped, non-empty and not the placeholder |
| BotRequests.GetConfigToken | telegram_bot.py:29-31 | the token is refused exactly when, stripped, it is empty or "YOUR_BOT_TOKEN" |
| BotRequests.GetConfigDefaults | telegram_bot.py:32-34 | absent settings give a limit of 100 and the data directory "data/bot" beside the bot |
| JobQueue.RequestQueue.constructor | telegram_bot.py:14-16 | the queue starts empty with a zero counter |
| JobQueue.RequestQueue.Put | telegram_bot.py:119-121 | the job goes to the tail and the counter goes up by one |
| JobQueue.RequestQueue.Get | telegram_bot.py:63-65 | the head job leaves first and the counter becomes max(0, counter - 1), never negative |
| JobQueue.RequestQueue.HandleMessage | telegram_bot.py:103-127 | only a well-formed request queues a job; the reply's position is the new counter |
| JobQueue.RunFetchSync | telegram_bot.py:38-55 | the run computes `FetchSync`: no file when nothing was found or the list is missing |
| JobQueue.FetchSyncFinds | telegram_bot.py:49-53 | for a non-empty keyword a file comes back exactly when records were found; it is the fetch's address list |
| JobQueue.ServeJob | telegram_bot.py:62-93 | one worker step computes `ServeOne` |
| JobQueue.Worker | telegram_bot.py:58-100 | the worker drains the queue in order and leaves the counter at zero |
| JobQueue.Answer | telegram_bot.py:65-91 | after the fetch, two messages to the job's chat: the announcement with the capped count, then the address list (which is then deleted from the files) when the list exists, or the nothing-found message with the files unchanged |
| JobQueue.ServeOneShape | telegram_bot.py:66-93 | a job gets the announcement with the capped count, then one answer, both to its chat |
| JobQueue.ServeAnswers | telegram_bot.py:58-100 | a worker that answers each job with an announcement and one reply answers a whole queue that way, in order |
| JobQueue.ServeShape | telegram_bot.py:58-100 | every queued job gets two messages, in queue order |
| JobQueue.ServeOneDelivers | telegram_bot.py:66-93 | the answer is the fetch's address list, one line per record, then deleted; or "nothing found" when the fetch found nothing |

## Left out

- Browser automation (Camoufox/Playwright navigation, load waits, locators, `inner_text`, `get_attribute`): replaced by the `Web` value and the `RawRow`/`DetailPage` inputs.
- Navigation failures and time-outs: every detail URL yields a page, so the exceptions `fetch_sunbiz_data` would raise, and `run_fetch_sync`'s `except Exception` path, are not modelled.
- The "Next List" chain: the crawl walks the finite page sequence `web.listing(search_url)`. `NextListUrl` models how the next link is read, but the crawl does not derive the chain from it. A chain that loops forever on the real site is out of reach.
- `PO_BOX_PATTERN`: the regular expression is the parameter `poBox`. Only the blank branch of `_is_po_box_or_empty` is proved without it.
- `urllib.parse.quote`: the encoder is the parameter `quote`.
- `DEFAULT_SEARCH_URL` (main.py:33) is `build_search_url()` at import time and is never used by the core.
- The JSON output: `json.dumps` and the write to `output_path` are not modelled, so that file does not appear in `Files`.
- `on_progress`: the callback is modelled as the sequence of counts it would receive (`progress`).
- `headless` has no effect on the model.
- `lower()` is modelled on ASCII letters only.
- `int()` accepts ASCII digits only: the non-ASCII digits Python also accepts are left out. Message tokens hold no whitespace, and `max_addresses` is stripped before it is parsed.
- Path handling: `Path` objects become a directory plus a file name. `resolve()`, normalisation of ".." and repeated slashes, and `mkdir` are left out.
- A `seen_path` given as the empty string behaves like `None` in the source. Both are the model's `None`.
- `Files` holds text only: UTF-8 encoding, file sizes (the caption's byte count), and the document upload are left out.
- Concurrency: `asyncio.Queue`, `asyncio.Lock`, `run_in_executor`, task creation and cancellation are not modelled. The queue and its counter are a class used one call at a time. `Get` returns `None` where `request_queue.get()` would wait. `Worker` stops when the queue is empty, instead of waiting forever.
- `queue_worker`'s `except Exception` path: the "Error al procesar" message is left out together with the exceptions that cause it.
- The Telegram transport (`send_message`, `send_document`, `reply_text`, handlers, polling): replies and notices are values, not the HTML texts sent.
- The `/start` and `/help` texts are left out.
- `main()` is left out.
- Configuration parsing: configparser reading `config.ini` is the `Ini` map. `getint`'s interpolation and case-folding of option names are left out.
- The interactive `rich` terminal front end of `main.py` (lines 194-284) is left out.
