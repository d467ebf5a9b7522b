/**
 The crawl loop of CrawlWorker (`start`) and the control skeleton of
 `processPage`. The network, the parser's title and serialisation, and
 relative-link resolution are parameters: the model fixes what the loop does
 with whatever they return.
 */
module Crawler {

  import opened Options
  import opened Dom
  import opened Frontier
  import Sanitizer

  /** A crawled page: the requested URL, its title and its cleaned HTML. */
  datatype WebPage = WebPage(url: Url, title: string, html: string)

  /** Fetching and parsing one URL. Every way it can fail (malformed URL,
      HTTP status, MIME type, timeout, any other I/O error) is one `Failure`. */
  datatype FetchOutcome = Failure | Success(doc: Document)

  /** Everything the loop consults and this model does not define.
      `fetch(n, url)` is the outcome of the crawl's `n`-th fetch. */
  datatype Env<!Q> = Env(
    queue: QueueOps<Q>,
    fetch: (nat, Url) -> FetchOutcome,
    title: Document -> string,
    html: Document -> string,
    absUrl: (Url, string) -> Url)

  /** The loop's state: the remaining budget (`maxPages`), the queue, the
      pages collected, the URLs fetched so far and the calls made on the queue. */
  datatype Crawl<!Q> = Crawl(
    budget: int,
    queue: Q,
    pages: set<WebPage>,
    fetched: seq<Url>,
    calls: seq<QueueCall>)

  /** What a successful `processPage` hands back: the page, the queue after
      its calls, and the URLs it added. */
  datatype Processed<!Q> = Processed(page: WebPage, queue: Q, added: seq<Url>)

  /** `queue.add(site)` before the loop, with the budget taken from the configuration. */
  function Init<Q>(env: Env<Q>, q0: Q, site: Url, maxPages: int): Crawl<Q>
  {
    Crawl(maxPages, env.queue.add(q0, site), {}, [], [Add(site)])
  }

  /** The loop guard `maxPages > 0 && !queue.isEmpty()`. */
  predicate Guard<Q>(env: Env<Q>, c: Crawl<Q>)
  {
    c.budget > 0 && !env.queue.isEmpty(c.queue)
  }

  /** `absUrl("href")` of every `a[href]` element, against the document's base URI (`location`). */
  function Resolve<Q>(env: Env<Q>, d: Document): seq<Url>
  {
    var hs := Links(d);
    seq(|hs|, i requires 0 <= i < |hs| => env.absUrl(d.location, hs[i]))
  }

  /** `processPage(url)` on queue `q` as the crawl's `n`-th fetch: `None` when
      it throws, which happens before the queue is touched. */
  function ProcessPage<Q>(env: Env<Q>, q: Q, url: Url, n: nat): (r: Option<Processed<Q>>)
    ensures r.None? <==> env.fetch(n, url).Failure?
    ensures r.Some? ==> r.value.page.url == url
    ensures r.Some? ==> forall u :: u in r.value.added ==>
              exists h :: h in Links(env.fetch(n, url).doc) && u == env.absUrl(env.fetch(n, url).doc.location, h)
  {
    match env.fetch(n, url)
    case Failure => None
    case Success(doc) =>
      var page := Sanitizer.Clean(doc);
      var links := Resolve(env, page);
      Sanitizer.CleanLinks(doc);
      assert forall u :: u in links ==> exists h :: h in Links(doc) && u == env.absUrl(doc.location, h) by {
        forall u | u in links
          ensures exists h :: h in Links(doc) && u == env.absUrl(doc.location, h)
        {
          var i :| 0 <= i < |links| && links[i] == u;
          var h := Links(page)[i];
          assert h in multiset(Links(page));
        }
      }
      var q' := env.queue.addToCrawled(AddAll(env.queue, q, links), url);
      Some(Processed(WebPage(url, env.title(page), env.html(page)), q', links))
  }

  /** One iteration of the loop body. */
  function Step<Q(!new)>(env: Env<Q>, c: Crawl<Q>): (c': Crawl<Q>)
    requires NextRemovesOne(env.queue)
    requires Guard(env, c)
    ensures c'.budget == c.budget - 1 ||
            (c'.budget == c.budget && env.queue.size(c'.queue) < env.queue.size(c.queue))
    ensures c'.budget == c.budget ==> c'.pages == c.pages
    ensures c.pages <= c'.pages && |c'.pages| <= |c.pages| + 1
    ensures Crawled(c'.calls) == Crawled(c.calls) + (c.budget - c'.budget)
    ensures (forall p :: p in c.pages ==> p.url in c.fetched) ==>
            (forall p :: p in c'.pages ==> p.url in c'.fetched)
  {
    var (nextUrl, q1) := env.queue.next(c.queue);
    match nextUrl
    case None => c.(queue := q1, calls := c.calls + [Next])
    case Some(url) =>
      match ProcessPage(env, q1, url, |c.fetched|)
      case None => c.(queue := q1, fetched := c.fetched + [url], calls := c.calls + [Next])
      case Some(p) =>
        var calls' := c.calls + [Next] + AddCalls(p.added) + [AddToCrawled(url)];
        CrawledAppend(c.calls + [Next], AddCalls(p.added));
        AddCallsNotCrawled(p.added);
        Crawl(c.budget - 1, p.queue, c.pages + {p.page}, c.fetched + [url], calls')
  }

  /** A failed fetch consumes the dequeued URL and nothing else: the budget
      and the pages stay, no link is added and the URL is not marked crawled. */
  lemma StepOnFailure<Q(!new)>(env: Env<Q>, c: Crawl<Q>, url: Url)
    requires NextRemovesOne(env.queue) && Guard(env, c)
    requires env.queue.next(c.queue).0 == Some(url)
    requires env.fetch(|c.fetched|, url).Failure?
    ensures Step(env, c).budget == c.budget
    ensures Step(env, c).pages == c.pages
    ensures Step(env, c).queue == env.queue.next(c.queue).1
    ensures Step(env, c).calls == c.calls + [Next]
    ensures Step(env, c).fetched == c.fetched + [url]
  {
  }

  /** Budget is spent exactly when `next` yields a URL whose fetch succeeds:
      an empty `Optional` and a failed fetch both leave it as it was. */
  lemma StepSpends<Q(!new)>(env: Env<Q>, c: Crawl<Q>)
    requires NextRemovesOne(env.queue) && Guard(env, c)
    ensures Step(env, c).budget == c.budget - 1 <==>
            (env.queue.next(c.queue).0.Some? &&
             env.fetch(|c.fetched|, env.queue.next(c.queue).0.value).Success?)
    ensures Step(env, c).budget != c.budget - 1 ==> Step(env, c).budget == c.budget
  {
  }

  /** An empty `Optional` from `next` only consumes the dequeue. */
  lemma StepOnEmpty<Q(!new)>(env: Env<Q>, c: Crawl<Q>)
    requires NextRemovesOne(env.queue) && Guard(env, c)
    requires env.queue.next(c.queue).0.None?
    ensures Step(env, c) == c.(queue := env.queue.next(c.queue).1, calls := c.calls + [Next])
  {
  }

  /** A successful fetch adds every resolved link of the cleaned document,
      in order, then marks the requested URL crawled; it records the page
      under the requested URL (not the URL the document was served from) and
      spends one unit of budget. */
  lemma StepOnSuccess<Q(!new)>(env: Env<Q>, c: Crawl<Q>, url: Url, doc: Document)
    requires NextRemovesOne(env.queue) && Guard(env, c)
    requires env.queue.next(c.queue).0 == Some(url)
    requires env.fetch(|c.fetched|, url) == Success(doc)
    ensures var clean := Sanitizer.Clean(doc);
            var links := Resolve(env, clean);
            var c' := Step(env, c);
            && c'.budget == c.budget - 1
            && c'.pages == c.pages + {WebPage(url, env.title(clean), env.html(clean))}
            && c'.calls == c.calls + [Next] + AddCalls(links) + [AddToCrawled(url)]
            && c'.queue == env.queue.addToCrawled(AddAll(env.queue, env.queue.next(c.queue).1, links), url)
            && c'.fetched == c.fetched + [url]
  {
  }

  /** The whole loop, from state `c` until the guard fails. */
  function Run<Q(!new)>(env: Env<Q>, c: Crawl<Q>): (r: Crawl<Q>)
    requires NextRemovesOne(env.queue)
    ensures !Guard(env, r)
    ensures c.budget <= 0 ==> r == c
    ensures c.budget > 0 ==> 0 <= r.budget <= c.budget
    ensures c.pages <= r.pages
    ensures |r.pages| <= |c.pages| + (c.budget - r.budget)
    ensures Crawled(r.calls) == Crawled(c.calls) + (c.budget - r.budget)
    ensures (forall p :: p in c.pages ==> p.url in c.fetched) ==>
            (forall p :: p in r.pages ==> p.url in r.fetched)
    decreases c.budget, env.queue.size(c.queue)
  {
    if Guard(env, c) then Run(env, Step(env, c)) else c
  }

  /** What a whole crawl from the seed guarantees: a non-positive budget
      fetches nothing and adds only the seed; otherwise at most `maxPages`
      pages, one `addToCrawled` per unit of budget spent; every page was
      fetched in this crawl. */
  lemma SeededRun<Q(!new)>(env: Env<Q>, q0: Q, site: Url, maxPages: int)
    requires NextRemovesOne(env.queue)
    ensures var r := Run(env, Init(env, q0, site, maxPages));
            && (maxPages <= 0 ==>
                  r.pages == {} && r.fetched == [] && r.calls == [Add(site)]
                  && r.queue == env.queue.add(q0, site))
            && (maxPages > 0 ==> |r.pages| <= Crawled(r.calls) == maxPages - r.budget <= maxPages)
            && (forall p :: p in r.pages ==> p.url in r.fetched)
  {
    var c := Init(env, q0, site, maxPages);
    assert Crawled(c.calls) == 0 by {
      assert c.calls[..0] == [];
    }
    var r := Run(env, c);
  }

  /** The loop body of `start()` as the code runs it: dequeue, and when a URL
      comes back, process it and on success record the page and spend one
      unit of budget. */
  method Iterate<Q(!new)>(env: Env<Q>, c: Crawl<Q>) returns (c': Crawl<Q>)
    requires NextRemovesOne(env.queue)
    requires Guard(env, c)
    ensures c' == Step(env, c)
  {
    var dequeued := env.queue.next(c.queue);
    var nextUrl, q1 := dequeued.0, dequeued.1;
    c' := c.(queue := q1, calls := c.calls + [Next]);
    if nextUrl.Some? {
      var url := nextUrl.value;
      var outcome := ProcessPage(env, q1, url, |c.fetched|);
      c' := c'.(fetched := c.fetched + [url]);
      if outcome.Some? {
        var p := outcome.value;
        c' := c'.(pages := c.pages + {p.page}, budget := c.budget - 1, queue := p.queue,
                  calls := c'.calls + AddCalls(p.added) + [AddToCrawled(url)]);
        // Thread.sleep(delay) here changes no state; an interruption is
        // caught and the loop goes on with this page already counted.
        StepOnSuccess(env, c, url, env.fetch(|c.fetched|, url).doc);
      } else {
        StepOnFailure(env, c, url);
      }
    } else {
      StepOnEmpty(env, c);
    }
  }

  /** `start()`: seed the queue with the site, then run the loop. Returns the
      pages and the final loop state. */
  method Start<Q(!new)>(env: Env<Q>, q0: Q, site: Url, maxPages: int)
    returns (pages: set<WebPage>, final: Crawl<Q>)
    requires NextRemovesOne(env.queue)
    ensures final == Run(env, Init(env, q0, site, maxPages))
    ensures pages == final.pages
    ensures !Guard(env, final)
    ensures maxPages <= 0 ==>
              pages == {} && final.fetched == [] && final.calls == [Add(site)]
              && final.queue == env.queue.add(q0, site)
    ensures maxPages > 0 ==> |pages| <= Crawled(final.calls) <= maxPages
    ensures forall p :: p in pages ==> p.url in final.fetched
  {
    var c := Init(env, q0, site, maxPages);
    ghost var start := c;
    while c.budget > 0 && !env.queue.isEmpty(c.queue)
      invariant Run(env, c) == Run(env, start)
      decreases c.budget, env.queue.size(c.queue)
    {
      c := Iterate(env, c);
    }
    final := c;
    pages := c.pages;
    SeededRun(env, q0, site, maxPages);
  }
}
