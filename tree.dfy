/**
 * The parsed LIFT document as an immutable element tree, with the narrow set
 * of queries the converter makes of it: descendants by element name (the
 * library's `find_all`), direct children by name (`find_all(recursive=False)`),
 * the first match (`find`), attribute lookup, and `trait[name=...]` selection.
 */
module LiftTree {

  datatype Option<T> = None | Some(value: T)

  /** An element: its tag name, attributes, the text the parser reports for it
      (`.text`), and its child elements in document order. */
  datatype Node = Node(name: string, attrs: map<string, string>, text: string, children: seq<Node>)

  /** All elements strictly below the nodes of `cs`, each followed by its own
      descendants: document (preorder) order. */
  function Forest(cs: seq<Node>): (r: seq<Node>)
    decreases cs
  {
    if cs == [] then [] else [cs[0]] + Forest(cs[0].children) + Forest(cs[1..])
  }

  /** The strict descendants of `n` in document order. */
  function Descendants(n: Node): seq<Node>
  {
    Forest(n.children)
  }

  /** The nodes of `ns` whose element name is `name`, order kept. */
  function Named(ns: seq<Node>, name: string): (r: seq<Node>)
    ensures |r| <= |ns|
    ensures forall i :: 0 <= i < |r| ==> r[i].name == name
  {
    if ns == [] then []
    else if ns[|ns| - 1].name == name then Named(ns[..|ns| - 1], name) + [ns[|ns| - 1]]
    else Named(ns[..|ns| - 1], name)
  }

  /** `n.find_all(name)`: every descendant element named `name`, document order. */
  function FindAll(n: Node, name: string): seq<Node>
  {
    Named(Descendants(n), name)
  }

  /** `n.find_all(name, recursive=False)`: direct children named `name`. */
  function ChildrenNamed(n: Node, name: string): seq<Node>
  {
    Named(n.children, name)
  }

  /** `n.find(name)`: the first descendant named `name`, if there is one. */
  function Find(n: Node, name: string): (r: Option<Node>)
    ensures r.None? <==> FindAll(n, name) == []
    ensures r.Some? ==> r.value == FindAll(n, name)[0] && r.value.name == name
  {
    var all := FindAll(n, name);
    if all == [] then None else Some(all[0])
  }

  /** `n.select("trait[name='<traitName>']")`: descendant `trait` elements whose
      `name` attribute equals `traitName`, document order. */
  function SelectTrait(n: Node, traitName: string): (r: seq<Node>)
    ensures forall i :: 0 <= i < |r| ==>
      r[i].name == "trait" && "name" in r[i].attrs && r[i].attrs["name"] == traitName
  {
    TraitsNamed(FindAll(n, "trait"), traitName)
  }

  function TraitsNamed(ts: seq<Node>, traitName: string): (r: seq<Node>)
    requires forall i :: 0 <= i < |ts| ==> ts[i].name == "trait"
    ensures |r| <= |ts|
    ensures forall i :: 0 <= i < |r| ==>
      r[i].name == "trait" && "name" in r[i].attrs && r[i].attrs["name"] == traitName
  {
    if ts == [] then []
    else
      var last := ts[|ts| - 1];
      var before := TraitsNamed(ts[..|ts| - 1], traitName);
      if "name" in last.attrs && last.attrs["name"] == traitName then before + [last] else before
  }

  /** Every node of `ns` carries attribute `key`. */
  predicate AllHave(ns: seq<Node>, key: string)
  {
    forall i :: 0 <= i < |ns| ==> key in ns[i].attrs
  }

  /** The value of attribute `key` on each node, order kept. */
  function AttrValues(ns: seq<Node>, key: string): (r: seq<string>)
    requires AllHave(ns, key)
    ensures |r| == |ns|
  {
    if ns == [] then [] else AttrValues(ns[..|ns| - 1], key) + [ns[|ns| - 1].attrs[key]]
  }

  /** The `.text` of each node, order kept. */
  function Texts(ns: seq<Node>): (r: seq<string>)
    ensures |r| == |ns|
    ensures forall i :: 0 <= i < |ns| ==> r[i] == ns[i].text
  {
    if ns == [] then [] else Texts(ns[..|ns| - 1]) + [ns[|ns| - 1].text]
  }

  lemma TextsAppend(ns: seq<Node>, ms: seq<Node>)
    ensures Texts(ns + ms) == Texts(ns) + Texts(ms)
  {
  }

  lemma AllHaveSnoc(ns: seq<Node>, key: string)
    requires ns != [] && AllHave(ns[..|ns| - 1], key) && key in ns[|ns| - 1].attrs
    ensures AllHave(ns, key)
  {
    forall i | 0 <= i < |ns| ensures key in ns[i].attrs {
      if i < |ns| - 1 { assert ns[i] == ns[..|ns| - 1][i]; }
    }
  }
}
