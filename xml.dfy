/** An already-parsed ElementTree element and the three lookups the library uses:
    `find(tag)`, `findall(tag)` and `attrib.get(name)`. Only direct children are
    searched, as ElementTree does for a plain tag name. */
module Xml {
  import opened Builtins
  import opened Lists

  datatype Node = Node(tag: string, attrib: map<string, string>, text: Option<string>, children: seq<Node>)

  /** The key under which ElementTree stores the `xml:lang` attribute. */
  const XML_LANG := "{http://www.w3.org/XML/1998/namespace}lang"

  /** `node.find(tag)`: the first child with that tag, or None. */
  function Find(node: Node, tag: string): Option<Node>
  {
    FirstWithTag(node.children, tag)
  }

  /** The first of `nodes` carrying `tag`, or None. */
  function FirstWithTag(nodes: seq<Node>, tag: string): (r: Option<Node>)
    ensures r.Some? ==> r.value in nodes && r.value.tag == tag
    ensures r.None? <==> forall c :: c in nodes ==> c.tag != tag
    ensures r.Some? ==> exists i :: 0 <= i < |nodes| && nodes[i] == r.value && forall j :: 0 <= j < i ==> nodes[j].tag != tag
  {
    if nodes == [] then None
    else if nodes[0].tag == tag then Some(nodes[0])
    else
      var r := FirstWithTag(nodes[1..], tag);
      assert forall c :: c in nodes[1..] ==> c in nodes;
      assert r.Some? ==> forall i :: 0 <= i < |nodes| - 1 && nodes[1..][i] == r.value ==> nodes[i + 1] == r.value;
      r
  }

  /** `c` carries `tag`, as the condition of a comprehension. */
  function Tagged(tag: string): Node -> bool
  {
    (c: Node) => c.tag == tag
  }

  /** `node.findall(tag)`: every child with that tag. */
  function FindAll(node: Node, tag: string): (r: seq<Node>)
    ensures forall c :: c in r <==> c in node.children && c.tag == tag
  {
    ChildrenWithTag(node.children, tag)
  }

  function ChildrenWithTag(nodes: seq<Node>, tag: string): (r: seq<Node>)
    ensures |r| <= |nodes|
    ensures forall c :: c in r <==> c in nodes && c.tag == tag
  {
    if nodes == [] then []
    else (if nodes[0].tag == tag then [nodes[0]] else []) + ChildrenWithTag(nodes[1..], tag)
  }

  lemma {:induction false} ChildrenWithTagInOrder(nodes: seq<Node>, tag: string)
    ensures ChildrenWithTag(nodes, tag) == Filter(nodes, Tagged(tag))
  {
    if nodes != [] {
      ChildrenWithTagInOrder(nodes[1..], tag);
    }
  }

  /** `findall` keeps the children carrying the tag in document order, each as often
      as it occurs. */
  lemma FindAllInOrder(node: Node, tag: string)
    ensures FindAll(node, tag) == Filter(node.children, Tagged(tag))
  {
    ChildrenWithTagInOrder(node.children, tag);
  }

  /** `node.attrib.get(name)`. */
  function Get(node: Node, name: string): Option<string>
  {
    if name in node.attrib then Some(node.attrib[name]) else None
  }

  /** `node.find(tag).text if node.find(tag) is not None else None`: the text of the
      first child carrying the tag, and None when none does. */
  function ChildText(node: Node, tag: string): (r: Option<string>)
    ensures (forall c :: c in node.children ==> c.tag != tag) ==> r.None?
    ensures (exists c :: c in node.children && c.tag == tag) ==>
              exists i :: 0 <= i < |node.children| && node.children[i].tag == tag && r == node.children[i].text
                && forall j :: 0 <= j < i ==> node.children[j].tag != tag
  {
    match Find(node, tag)
    case None => None
    case Some(c) => c.text
  }
}
