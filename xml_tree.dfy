/** The already-parsed XML document both parsers work on: an element has a tag,
    attributes, optional text and ordered children, as in ElementTree. */
module XmlTree {
  import opened Wrappers
  import opened Text

  datatype Node = Node(tag: string, attrs: map<string, string>, text: Option<string>, children: seq<Node>)

  /** `el.get(name)`. */
  function Attr(n: Node, name: string): Option<string> {
    if name in n.attrs then Some(n.attrs[name]) else None
  }

  /** `el.get(name) or ""`: a missing attribute reads as empty. */
  function AttrOrEmpty(n: Node, name: string): string {
    Attr(n, name).GetOr("")
  }

  function Tagged(ns: seq<Node>, tag: string): (r: seq<Node>)
    ensures |r| <= |ns|
    ensures forall i :: 0 <= i < |r| ==> r[i].tag == tag && r[i] in ns
  {
    if ns == [] then []
    else (if ns[0].tag == tag then [ns[0]] else []) + Tagged(ns[1..], tag)
  }

  /** `el.findall(tag)`: the direct children with that tag, in document order. */
  function FindAll(n: Node, tag: string): seq<Node> {
    Tagged(n.children, tag)
  }

  /** `el.find(tag)`: the first direct child with that tag. */
  function Find(n: Node, tag: string): Option<Node> {
    var all := FindAll(n, tag);
    if all == [] then None else Some(all[0])
  }

  /** `el.text or ""`. */
  function TextOf(n: Node): string {
    n.text.GetOr("")
  }

  /** The stripped text of the first child with the tag, or "" when there is no
      such child (`_txt` of the Tally parser, `_text(el.find(tag))` of the MKCP
      parser). */
  function Txt(n: Node, tag: string): (r: string)
    ensures r == [] || (!IsSpace(r[0]) && !IsSpace(r[|r| - 1]))
  {
    match Find(n, tag)
    case Some(c) => Strip(TextOf(c))
    case None => ""
  }

  /** Document-order (pre-order) walk over a list of sibling trees, keeping the
      elements with the tag. */
  function IterAll(ns: seq<Node>, tag: string): (r: seq<Node>)
    ensures forall i :: 0 <= i < |r| ==> r[i].tag == tag
    decreases ns
  {
    if ns == [] then []
    else (if ns[0].tag == tag then [ns[0]] else []) + IterAll(ns[0].children, tag) + IterAll(ns[1..], tag)
  }

  /** `el.iter(tag)`: the element itself and all its descendants with the tag. */
  function Iter(n: Node, tag: string): seq<Node> {
    IterAll([n], tag)
  }

  /** `el.findall(".//" + tag)`: the descendants with the tag, excluding `el`. */
  function Descendants(n: Node, tag: string): seq<Node> {
    IterAll(n.children, tag)
  }
}
