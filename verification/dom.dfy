/**
 The parsed HTML document the crawler works on, reduced to what the crawl
 loop and the sanitiser look at: element tags, attributes and nesting, split
 into the `head` and `body` regions. Parsing itself is not modelled; tag
 names are taken as already normalised to lower case by the parser.
 */
module Dom {

  type Url = string

  datatype Node =
    | Element(tag: string, attrs: map<string, string>, children: seq<Node>)
    | Text(text: string)

  /** A parsed page: its base URI, against which relative links are resolved
      (the served URL unless a `<base href>` overrides it), and the children
      of its head and body. */
  datatype Document = Document(location: Url, head: seq<Node>, body: seq<Node>)

  /** Every element tag occurring anywhere in a forest, at any depth. */
  function Tags(ns: seq<Node>): set<string>
    decreases ns
  {
    if ns == [] then {}
    else
      (match ns[0]
       case Text(_) => {}
       case Element(t, _, kids) => {t} + Tags(kids))
      + Tags(ns[1..])
  }

  lemma {:induction false} TagsAppend(a: seq<Node>, b: seq<Node>)
    ensures Tags(a + b) == Tags(a) + Tags(b)
    decreases a
  {
    if a == [] {
      assert a + b == b;
    } else {
      assert (a + b)[0] == a[0];
      assert (a + b)[1..] == a[1..] + b;
      TagsAppend(a[1..], b);
    }
  }

  /** The `href` of an element matched by the selector `a[href]`, if it is one. */
  function Href(n: Node): seq<string>
  {
    match n
    case Element(t, attrs, _) => if t == "a" && "href" in attrs then [attrs["href"]] else []
    case Text(_) => []
  }

  /** The `href` values of all `a[href]` elements of a forest, in document
      (pre-)order: an element before its descendants, siblings left to right. */
  function Anchors(ns: seq<Node>): seq<string>
    decreases ns
  {
    if ns == [] then []
    else
      (match ns[0]
       case Text(_) => []
       case Element(_, _, kids) => Href(ns[0]) + Anchors(kids))
      + Anchors(ns[1..])
  }

  lemma {:induction false} AnchorsAppend(a: seq<Node>, b: seq<Node>)
    ensures Anchors(a + b) == Anchors(a) + Anchors(b)
    decreases a
  {
    if a == [] {
      assert a + b == b;
    } else {
      assert (a + b)[0] == a[0];
      assert (a + b)[1..] == a[1..] + b;
      AnchorsAppend(a[1..], b);
    }
  }

  /** `select("a[href]")` on the whole document: head first, then body. */
  function Links(d: Document): seq<string>
  {
    Anchors(d.head) + Anchors(d.body)
  }
}
