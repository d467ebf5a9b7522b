# site-crawler: crawl loop and sanitiser, in Dafny

This project models the core of the site crawler's `CrawlWorker`. It covers two parts.

- **The crawl loop** (`start`) and the control skeleton of `processPage`. The queue is seeded with the site. While budget remains and the queue is not empty, the loop dequeues a URL and fetches and parses it. On success it cleans the document, adds every `a[href]` target (resolved to an absolute URL) to the queue, marks the URL crawled, records the page and spends one unit of budget. A checked failure (an `IOException` from fetching or parsing) is caught, and the loop moves on; the model treats every fetch failure as such a failure.
- **The sanitiser** (`clean`). It removes every subtree rooted at a `form`, `style`, `svg`, `script`, `canvas`, `dialog`, `embed` or `figcaption` element from the body. From the head it removes only `script` and `style`.

Modules:

- `Dom` is the parsed document: an element tree with separate `head` and `body` regions, the set of tags in a forest, and the `a[href]` values in document order.
- `Sanitizer` holds `Strip`, which removes subtrees for a whole set of tags at once, and `Clean`, the per-tag passes the code makes. The two are proved equal.
- `Frontier` is the crawl queue, seen from outside. Its operations are parameters. Every `add`, `next` and `addToCrawled` call the loop makes is recorded in a log; `isEmpty` is a pure query and is not recorded.
- `Crawler` has `ProcessPage`, the pure one-iteration `Step`, the reference `Run`, and the `Start` method, whose loop is proved to compute `Run`.

The crawl makes one assumption about the queue: `next` on a non-empty queue removes one element (`Frontier.NextRemovesOne`). Termination rests on it. A success lowers the budget. A failure, or an empty `Optional`, keeps the budget but shortens the queue. So `(budget, size of queue)` decreases lexicographically. This is the `decreases` clause of `Run` and of the loop in `Start`. The assumption does not require `next` to return a URL. The branch where `Optional` is empty (line 47) is modelled as it is written: the element is consumed and nothing else happens. `Frontier.ListQueue` is a plain list queue that meets the assumption. It only shows that the assumption can be met; it is not the crawler's own queue.

Three behaviours of the code worth noting:

- The page is recorded under the *requested* URL, not under the URL the document was finally served from. Links, however, are resolved against the document's base URI (the served URL unless a `<base href>` overrides it).
- An interruption of the politeness sleep is caught after the page has been counted, and the loop continues. The crawl is not aborted.
- The head and the body are cleaned with different tag sets. The head set is only `script` and `style`.

## Model

| member | source | states |
|---|---|---|
| Sanitizer.Strip | src/main/java/me/adeshina/sitecrawler/CrawlWorker.java:93 | the definition (no contract of its own) of `select(tag).remove()` on a region, for a set of tags: every subtree rooted at an element with one of the tags is dropped; its properties are the `Strip*` lemmas below |
| Crawler.Init | src/main/java/me/adeshina/sitecrawler/CrawlWorker.java:41-43 | the definition (no contract of its own) of the seeding: budget `maxPages`, no pages, `queue.add(site)` as the only call so far |
| Crawler.Guard | src/main/java/me/adeshina/sitecrawler/CrawlWorker.java:45 | the definition (no contract of its own) of the loop guard `maxPages > 0 && !queue.isEmpty()` |
| Crawler.Resolve | src/main/java/me/adeshina/sitecrawler/CrawlWorker.java:80 | the definition (no contract of its own) of `select("a[href]")` followed by `absUrl("href")` against the document's base URI |
| Dom.Links | src/main/java/me/adeshina/sitecrawler/CrawlWorker.java:80 | the definition (no contract of its own) of `select("a[href]")` on the whole document: head links, then body links |
| Dom.Anchors | src/main/java/me/adeshina/sitecrawler/CrawlWorker.java:80 | the definition (no contract of its own) of the `a[href]` values of a forest in document order |
| Frontier.AddAll | src/main/java/me/adeshina/sitecrawler/CrawlWorker.java:80 | the definition (no contract of its own) of `forEach(queue::add)`: each URL added in order |
| Crawler.StepSpends | src/main/java/me/adeshina/sitecrawler/CrawlWorker.java:46-58 | an iteration spends budget if and only if `next` returned a URL and its fetch succeeded: an empty `Optional` and a failed fetch both keep the budget |
| Sanitizer.StripTags | src/main/java/me/adeshina/sitecrawler/CrawlWorker.java:93 | after a region's removal pass, no element with a removed tag remains at any depth, and no tag appears that was not there before |
| Sanitizer.StripNoOp | src/main/java/me/adeshina/sitecrawler/CrawlWorker.java:97-100 | a removal pass leaves a region unchanged if and only if none of its tags occurs there (an empty selection removes nothing) |
| Sanitizer.StripIdempotent | src/main/java/me/adeshina/sitecrawler/CrawlWorker.java:93 | repeating a removal pass changes nothing |
| Sanitizer.StripCompose | src/main/java/me/adeshina/sitecrawler/CrawlWorker.java:92-93 | a pass for tag set A followed by one for B equals one pass for A and B together |
| Sanitizer.StripKeepsPruned | src/main/java/me/adeshina/sitecrawler/CrawlWorker.java:93 | a node not inside a removed subtree stays in place with its tag and attributes, even when it has removed descendants; only those descendants go |
| Sanitizer.StripKeepsExposed | src/main/java/me/adeshina/sitecrawler/CrawlWorker.java:93 | a subtree free of removed tags that is not inside a removed subtree is still present, unchanged |
| Sanitizer.StripAnchors | src/main/java/me/adeshina/sitecrawler/CrawlWorker.java:79-80 | removal only deletes links: the `a[href]` values afterwards form a sub-multiset of those before |
| Sanitizer.RemoveEach | src/main/java/me/adeshina/sitecrawler/CrawlWorker.java:92-93 | removing the body tags one at a time, in list order, is the same as one removal of the whole tag set |
| Sanitizer.RemoveEachIfPresent | src/main/java/me/adeshina/sitecrawler/CrawlWorker.java:96-101 | the head pass, which skips a tag whose selection is empty, is the same as one removal of the head tag set |
| Sanitizer.Clean | src/main/java/me/adeshina/sitecrawler/CrawlWorker.java:89-102 | after cleaning, the body holds none of the eight body tags and the head holds no `script` or `style`; the body and the head are each one removal pass over their own tag set; the base URI is unchanged |
| Sanitizer.CleanIdempotent | src/main/java/me/adeshina/sitecrawler/CrawlWorker.java:89-102 | cleaning twice gives the same document as cleaning once |
| Sanitizer.CleanNoOp | src/main/java/me/adeshina/sitecrawler/CrawlWorker.java:92-101 | cleaning leaves a document unchanged if and only if its body has none of the body tags and its head has no `script` or `style` |
| Sanitizer.CleanKeepsHead | src/main/java/me/adeshina/sitecrawler/CrawlWorker.java:96-101 | a head without `script` and `style` is left as it is, including any `form` or other body-only tag in it |
| Sanitizer.CleanKeepsPruned | src/main/java/me/adeshina/sitecrawler/CrawlWorker.java:92-101 | in each region, an element outside every removed subtree keeps its place, tag and attributes, with only its removed descendants dropped |
| Sanitizer.CleanKeepsExposed | src/main/java/me/adeshina/sitecrawler/CrawlWorker.java:92-101 | in each region, an element that is not inside a removed subtree and contains no removed tag survives unchanged |
| Sanitizer.CleanLinks | src/main/java/me/adeshina/sitecrawler/CrawlWorker.java:79-80 | each link of the cleaned document is a link of the fetched document |
| Crawler.ProcessPage | src/main/java/me/adeshina/sitecrawler/CrawlWorker.java:67-84 | processing fails exactly when the fetch fails; on success the page carries the requested URL, and every URL added to the queue is some `a[href]` of the fetched document, resolved against its base URI |
| Crawler.Step | src/main/java/me/adeshina/sitecrawler/CrawlWorker.java:45-60 | one iteration either spends exactly one unit of budget and adds at most one page, or keeps the budget and the pages and shortens the queue; budget spent equals the number of `addToCrawled` calls; every page was fetched |
| Crawler.StepOnEmpty | src/main/java/me/adeshina/sitecrawler/CrawlWorker.java:46-47 | when `next` returns an empty `Optional`, the iteration only dequeues: budget, pages, fetched URLs and every other queue call stay as they were |
| Crawler.StepOnFailure | src/main/java/me/adeshina/sitecrawler/CrawlWorker.java:67-78 | a failed fetch keeps the budget and the pages, only dequeues, adds no link and does not mark the URL crawled |
| Crawler.StepOnSuccess | src/main/java/me/adeshina/sitecrawler/CrawlWorker.java:78-84 | a successful fetch adds every resolved link of the cleaned document in order, then marks the requested URL crawled; it records the page (requested URL, title and HTML of the cleaned document) and spends one unit of budget |
| Crawler.Run | src/main/java/me/adeshina/sitecrawler/CrawlWorker.java:45-61 | the loop ends with its guard false; a non-positive budget runs no iteration; pages grow by at most the budget spent, and the budget never goes below zero once positive |
| Crawler.SeededRun | src/main/java/me/adeshina/sitecrawler/CrawlWorker.java:41-61 | with `maxPages <= 0` nothing is fetched and only the seed is added to the queue; otherwise at most `maxPages` pages, and exactly one `addToCrawled` per unit of budget spent |
| Crawler.Iterate | src/main/java/me/adeshina/sitecrawler/CrawlWorker.java:46-59 | the imperative loop body computes exactly one `Step`, so it inherits `Step`'s budget and page guarantees |
| Crawler.Start | src/main/java/me/adeshina/sitecrawler/CrawlWorker.java:39-62 | the loop computes `Run` from the seeded state and terminates; the result has at most `maxPages` pages and is empty, with no fetch, when `maxPages <= 0`; every returned page was fetched in this crawl |

## Left out

- HTTP fetching and parsing (`Jsoup.connect(...).userAgent(...).execute().bufferUp()`, `response.parse()`). The network is the parameter `fetch(n, url)`, the outcome of the crawl's `n`-th fetch. Every `IOException` it can raise (malformed URL, HTTP status, MIME type, timeout, other I/O) is one `Failure`.
- `title()`, `html()` and `absUrl("href")` are opaque parameters of the loop. They are applied to the cleaned document, and to its base URI, as the code applies them.
- The parser's document shell: the model keeps only the children of `head` and `body`. Tag names are taken as already lower-case. Text nodes carry no tags.
- `Thread.sleep(delayMilliSeconds)` and `printStackTrace`. These are timing and logging. A completed sleep, or one ended by `InterruptedException`, changes no state of the loop.
- `CrawlQueue` internals (deduplication, FIFO order): their source is not part of this model. No dedup or ordering property is claimed. Only `NextRemovesOne` is assumed.
- `WebPage` equality: its source is not part of this model. Pages are collected in a set with structural equality. The page bound holds under any equality.
- `CrawlConfig` beyond `maxPages`: the user agent only reaches the fetch, and a non-negative delay only paces the loop.
- Unchecked exceptions that abort `start()` and lose the pages collected so far are not modelled: from Jsoup's validation of the URL string at line 72, from `absUrl` or `queue.add` at line 80, or from `Thread.sleep` at line 54 on a negative delay. Fetch failures are assumed to be `IOException`s and the delay non-negative.
- Java `int` overflow of `maxPages`: the budget only goes down from a positive value and stops at zero, so no wrap-around can happen.
- Crawler.ProcessPage: the link-origin clause is stated per URL (each added URL comes from some link of the fetched document), not as a multiset bound on the resolved links.
