/**
 The content sanitiser `clean` of CrawlWorker: every subtree whose root tag is
 in a fixed set is removed, with one set for the body and a smaller one for
 the head. Jsoup's `select(tag).remove()` removes every element with that tag
 together with everything inside it; `Strip` is that removal for a set of
 tags at once, and `Clean` is the per-tag sequence the code performs.
 */
module Sanitizer {

  import opened Dom

  /** The body tags, in the order the code removes them. */
  const BodyTags: seq<string> := ["form", "style", "svg", "script", "canvas", "dialog", "embed", "figcaption"]

  /** The head tags, in the order the code removes them. */
  const HeadTags: seq<string> := ["script", "style"]

  function TagSet(tags: seq<string>): set<string>
  {
    set t | t in tags
  }

  const BodyRemoved: set<string> := TagSet(BodyTags)
  const HeadRemoved: set<string> := TagSet(HeadTags)

  /** A node survives at its own position unless it is an element tagged in `S`. */
  predicate Kept(n: Node, S: set<string>)
  {
    !(n.Element? && n.tag in S)
  }

  /** Remove every subtree rooted at an element tagged in `S`. */
  function Strip(ns: seq<Node>, S: set<string>): seq<Node>
    decreases ns
  {
    if ns == [] then []
    else if !Kept(ns[0], S) then Strip(ns[1..], S)
    else
      (match ns[0]
       case Text(_) => [ns[0]]
       case Element(t, a, kids) => [Element(t, a, Strip(kids, S))])
      + Strip(ns[1..], S)
  }

  /** What a kept node becomes: the same node with its descendants stripped. */
  function Prune(n: Node, S: set<string>): Node
  {
    match n
    case Text(_) => n
    case Element(t, a, kids) => Element(t, a, Strip(kids, S))
  }

  /** `n` sits in the forest `ns` with no element tagged in `S` on the way
      down to it (itself included): no removal in `S` can touch its position. */
  ghost predicate Exposed(n: Node, ns: seq<Node>, S: set<string>)
    decreases ns
  {
    exists i :: 0 <= i < |ns| && Kept(ns[i], S) &&
      (ns[i] == n || (ns[i].Element? && Exposed(n, ns[i].children, S)))
  }

  lemma {:induction false} StripAppend(a: seq<Node>, b: seq<Node>, S: set<string>)
    ensures Strip(a + b, S) == Strip(a, S) + Strip(b, S)
    decreases a
  {
    if a == [] {
      assert a + b == b;
    } else {
      assert (a + b)[0] == a[0];
      assert (a + b)[1..] == a[1..] + b;
      StripAppend(a[1..], b, S);
    }
  }

  /** After stripping, no tag of `S` occurs anywhere, and no tag occurs that
      did not occur before. */
  lemma {:induction false} StripTags(ns: seq<Node>, S: set<string>)
    ensures Tags(Strip(ns, S)) !! S
    ensures Tags(Strip(ns, S)) <= Tags(ns)
    decreases ns
  {
    if ns != [] {
      StripTags(ns[1..], S);
      var rest := Strip(ns[1..], S);
      if Kept(ns[0], S) {
        var p := Prune(ns[0], S);
        assert Strip(ns, S) == [p] + rest;
        TagsAppend([p], rest);
        match ns[0]
        case Text(_) =>
        case Element(t, a, kids) =>
          StripTags(kids, S);
          assert Tags([p]) == {t} + Tags(Strip(kids, S));
      }
    }
  }

  /** Stripping changes nothing exactly when no tag of `S` occurs. */
  lemma {:induction false} StripNoOp(ns: seq<Node>, S: set<string>)
    ensures Strip(ns, S) == ns <==> Tags(ns) !! S
    decreases ns
  {
    if Tags(ns) !! S {
      NoOpWhenAbsent(ns, S);
    }
    if Strip(ns, S) == ns {
      StripTags(ns, S);
    }
  }

  lemma {:induction false} NoOpWhenAbsent(ns: seq<Node>, S: set<string>)
    requires Tags(ns) !! S
    ensures Strip(ns, S) == ns
    decreases ns
  {
    if ns != [] {
      NoOpWhenAbsent(ns[1..], S);
      match ns[0]
      case Text(_) =>
        assert ns == [ns[0]] + ns[1..];
      case Element(t, a, kids) =>
        NoOpWhenAbsent(kids, S);
        assert ns == [ns[0]] + ns[1..];
    }
  }

  lemma StripIdempotent(ns: seq<Node>, S: set<string>)
    ensures Strip(Strip(ns, S), S) == Strip(ns, S)
  {
    StripTags(ns, S);
    StripNoOp(Strip(ns, S), S);
  }

  /** Two passes equal one pass with the union of the tag sets. */
  lemma {:induction false} StripCompose(ns: seq<Node>, A: set<string>, B: set<string>)
    ensures Strip(Strip(ns, A), B) == Strip(ns, A + B)
    decreases ns
  {
    if ns != [] {
      StripCompose(ns[1..], A, B);
      if Kept(ns[0], A) {
        var p := Prune(ns[0], A);
        assert Strip(ns, A) == [p] + Strip(ns[1..], A);
        StripAppend([p], Strip(ns[1..], A), B);
        match ns[0]
        case Text(_) =>
        case Element(t, a, kids) =>
          StripCompose(kids, A, B);
      }
    }
  }

  /** The pruned image of every kept node of `ns` is a node of the result. */
  lemma {:induction false} StripKeepsNode(ns: seq<Node>, S: set<string>, i: nat)
    requires i < |ns| && Kept(ns[i], S)
    ensures Prune(ns[i], S) in Strip(ns, S)
    decreases i
  {
    if i == 0 {
      assert Strip(ns, S)[0] == Prune(ns[0], S);
    } else {
      StripKeepsNode(ns[1..], S, i - 1);
      assert ns[1..][i - 1] == ns[i];
      StripAppend([ns[0]], ns[1..], S);
      assert ns == [ns[0]] + ns[1..];
    }
  }

  /** A node that is not inside a removed subtree stays in place with its own
      tag, attributes or text; only its removed descendants go. */
  lemma {:induction false} StripKeepsPruned(n: Node, ns: seq<Node>, S: set<string>)
    requires Exposed(n, ns, S)
    ensures Exposed(Prune(n, S), Strip(ns, S), S)
    decreases ns
  {
    var i :| 0 <= i < |ns| && Kept(ns[i], S) &&
      (ns[i] == n || (ns[i].Element? && Exposed(n, ns[i].children, S)));
    StripKeepsNode(ns, S, i);
    var r := Strip(ns, S);
    var j :| 0 <= j < |r| && r[j] == Prune(ns[i], S);
    if ns[i] == n {
      assert Kept(Prune(n, S), S);
    } else {
      StripKeepsPruned(n, ns[i].children, S);
      assert r[j].children == Strip(ns[i].children, S);
    }
  }

  /** A subtree that contains no tag of `S` and is not inside a removed
      subtree is still present, unchanged, after stripping. */
  lemma StripKeepsExposed(n: Node, ns: seq<Node>, S: set<string>)
    requires Tags([n]) !! S
    requires Exposed(n, ns, S)
    ensures Exposed(n, Strip(ns, S), S)
  {
    StripKeepsPruned(n, ns, S);
    NoOpWhenAbsent([n], S);
    assert Strip([n], S) == [Prune(n, S)];
  }

  /** Stripping only removes links: each `a[href]` value of the result is one
      of the original's, with no more repetitions than before. */
  lemma {:induction false} StripAnchors(ns: seq<Node>, S: set<string>)
    ensures multiset(Anchors(Strip(ns, S))) <= multiset(Anchors(ns))
    decreases ns
  {
    if ns != [] {
      StripAnchors(ns[1..], S);
      var rest := Strip(ns[1..], S);
      if Kept(ns[0], S) {
        var p := Prune(ns[0], S);
        assert Strip(ns, S) == [p] + rest;
        AnchorsAppend([p], rest);
        match ns[0]
        case Text(_) =>
        case Element(t, a, kids) =>
          StripAnchors(kids, S);
          assert Anchors([p]) == Href(ns[0]) + Anchors(Strip(kids, S));
      }
    }
  }

  /** `tags.forEach(tag -> region.select(tag).remove())`: one removal pass per
      tag, in list order. */
  function RemoveEach(ns: seq<Node>, tags: seq<string>): (r: seq<Node>)
    ensures r == Strip(ns, TagSet(tags))
    decreases |tags|
  {
    if tags == [] then
      assert TagSet(tags) == {};
      NoOpWhenAbsent(ns, {});
      ns
    else
      var r := RemoveEach(Strip(ns, {tags[0]}), tags[1..]);
      StripCompose(ns, {tags[0]}, TagSet(tags[1..]));
      assert TagSet(tags) == {tags[0]} + TagSet(tags[1..]);
      r
  }

  /** The head pass: a tag's matches are removed only when the selection is
      non-empty (the `isEmpty` check). */
  function RemoveEachIfPresent(ns: seq<Node>, tags: seq<string>): (r: seq<Node>)
    ensures r == Strip(ns, TagSet(tags))
    decreases |tags|
  {
    if tags == [] then
      assert TagSet(tags) == {};
      NoOpWhenAbsent(ns, {});
      ns
    else
      var once := if tags[0] in Tags(ns) then Strip(ns, {tags[0]}) else ns;
      assert once == Strip(ns, {tags[0]}) by {
        if tags[0] !in Tags(ns) {
          NoOpWhenAbsent(ns, {tags[0]});
        }
      }
      var r := RemoveEachIfPresent(once, tags[1..]);
      StripCompose(ns, {tags[0]}, TagSet(tags[1..]));
      assert TagSet(tags) == {tags[0]} + TagSet(tags[1..]);
      r
  }

  /** `clean(page)`: the body pass, then the head pass. */
  function Clean(d: Document): (r: Document)
    ensures r.location == d.location
    ensures r.body == Strip(d.body, BodyRemoved)
    ensures r.head == Strip(d.head, HeadRemoved)
    ensures Tags(r.body) !! BodyRemoved
    ensures Tags(r.head) !! HeadRemoved
  {
    assert TagSet(BodyTags) == BodyRemoved;
    assert TagSet(HeadTags) == HeadRemoved;
    StripTags(d.body, BodyRemoved);
    StripTags(d.head, HeadRemoved);
    d.(body := RemoveEach(d.body, BodyTags), head := RemoveEachIfPresent(d.head, HeadTags))
  }

  lemma CleanIdempotent(d: Document)
    ensures Clean(Clean(d)) == Clean(d)
  {
    StripIdempotent(d.body, BodyRemoved);
    StripIdempotent(d.head, HeadRemoved);
  }

  /** `clean` leaves a document unchanged exactly when its body has none of
      the body tags and its head has neither `script` nor `style`. */
  lemma CleanNoOp(d: Document)
    ensures Clean(d) == d <==> Tags(d.body) !! BodyRemoved && Tags(d.head) !! HeadRemoved
  {
    StripNoOp(d.body, BodyRemoved);
    StripNoOp(d.head, HeadRemoved);
  }

  /** The head loses only `script` and `style`: a head without them (but
      with, say, a `form`) is untouched, whatever the body holds. */
  lemma CleanKeepsHead(d: Document)
    requires Tags(d.head) !! HeadRemoved
    ensures Clean(d).head == d.head
  {
    NoOpWhenAbsent(d.head, HeadRemoved);
  }

  /** Elements outside every removed subtree survive unchanged. */
  lemma CleanKeepsExposed(d: Document, n: Node)
    ensures Exposed(n, d.body, BodyRemoved) && Tags([n]) !! BodyRemoved ==>
              Exposed(n, Clean(d).body, BodyRemoved)
    ensures Exposed(n, d.head, HeadRemoved) && Tags([n]) !! HeadRemoved ==>
              Exposed(n, Clean(d).head, HeadRemoved)
  {
    if Exposed(n, d.body, BodyRemoved) && Tags([n]) !! BodyRemoved {
      StripKeepsExposed(n, d.body, BodyRemoved);
    }
    if Exposed(n, d.head, HeadRemoved) && Tags([n]) !! HeadRemoved {
      StripKeepsExposed(n, d.head, HeadRemoved);
    }
  }

  /** In each region, an element outside every removed subtree keeps its
      place, tag and attributes; only its removed descendants go. */
  lemma CleanKeepsPruned(d: Document, n: Node)
    ensures Exposed(n, d.body, BodyRemoved) ==>
              Exposed(Prune(n, BodyRemoved), Clean(d).body, BodyRemoved)
    ensures Exposed(n, d.head, HeadRemoved) ==>
              Exposed(Prune(n, HeadRemoved), Clean(d).head, HeadRemoved)
  {
    if Exposed(n, d.body, BodyRemoved) {
      StripKeepsPruned(n, d.body, BodyRemoved);
    }
    if Exposed(n, d.head, HeadRemoved) {
      StripKeepsPruned(n, d.head, HeadRemoved);
    }
  }

  /** Cleaning never adds a link: the cleaned document's `a[href]` values are
      a sub-multiset of the original's. */
  lemma CleanLinks(d: Document)
    ensures multiset(Links(Clean(d))) <= multiset(Links(d))
  {
    StripAnchors(d.head, HeadRemoved);
    StripAnchors(d.body, BodyRemoved);
  }
}
