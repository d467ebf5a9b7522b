/**
 The crawl queue as the crawl loop sees it. Its implementation is not part of
 this model, so its operations are parameters, and the loop records every
 `add`, `next` and `addToCrawled` call it makes on the queue (`isEmpty` is a
 pure query and is not recorded). Of the queue's behaviour only one thing is
 assumed: `next` on a non-empty queue removes one element.
 */
module Frontier {

  import opened Options
  import opened Dom

  /** A call the crawl loop makes on its queue. */
  datatype QueueCall = Add(url: Url) | Next | AddToCrawled(url: Url)

  /** The queue's operations on an abstract queue state `Q`; `size` is the
      number of queued URLs, used only to measure progress. */
  datatype QueueOps<!Q> = QueueOps(
    add: (Q, Url) -> Q,
    isEmpty: Q -> bool,
    next: Q -> (Option<Url>, Q),
    addToCrawled: (Q, Url) -> Q,
    size: Q -> nat)

  /** The one assumption about the queue. */
  ghost predicate NextRemovesOne<Q(!new)>(ops: QueueOps<Q>)
  {
    forall q :: !ops.isEmpty(q) ==> ops.size(ops.next(q).1) + 1 == ops.size(q)
  }

  /** `urls.forEach(queue::add)`: add each URL, in order. */
  function AddAll<Q>(ops: QueueOps<Q>, q: Q, urls: seq<Url>): Q
    decreases |urls|
  {
    if urls == [] then q else AddAll(ops, ops.add(q, urls[0]), urls[1..])
  }

  /** The calls `AddAll` makes. */
  function AddCalls(urls: seq<Url>): seq<QueueCall>
  {
    seq(|urls|, i requires 0 <= i < |urls| => Add(urls[i]))
  }

  /** How many `addToCrawled` calls a call log holds. */
  function Crawled(calls: seq<QueueCall>): nat
    decreases |calls|
  {
    if calls == [] then 0
    else Crawled(calls[..|calls| - 1]) + (if calls[|calls| - 1].AddToCrawled? then 1 else 0)
  }

  lemma {:induction false} CrawledAppend(a: seq<QueueCall>, b: seq<QueueCall>)
    ensures Crawled(a + b) == Crawled(a) + Crawled(b)
    decreases |b|
  {
    if b == [] {
      assert a + b == a;
    } else {
      var b' := b[..|b| - 1];
      assert (a + b)[..|a + b| - 1] == a + b';
      CrawledAppend(a, b');
    }
  }

  /** Adding links never marks a URL crawled. */
  lemma {:induction false} AddCallsNotCrawled(urls: seq<Url>)
    ensures Crawled(AddCalls(urls)) == 0
    decreases |urls|
  {
    if urls != [] {
      var init := urls[..|urls| - 1];
      AddCallsNotCrawled(init);
      assert AddCalls(urls)[..|urls| - 1] == AddCalls(init);
    }
  }

  /** A plain list queue, which meets the assumption: it shows the
      assumption can be met, and is not a model of the crawler's own queue. */
  function ListQueue(): QueueOps<seq<Url>>
  {
    QueueOps(
      (q: seq<Url>, u: Url) => q + [u],
      (q: seq<Url>) => q == [],
      (q: seq<Url>) => if q == [] then (None, q) else (Some(q[0]), q[1..]),
      (q: seq<Url>, u: Url) => q,
      (q: seq<Url>) => |q|)
  }

  lemma ListQueueRemovesOne()
    ensures NextRemovesOne(ListQueue())
  {
  }
}
