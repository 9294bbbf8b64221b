/**
 * The parsed HTML tree as the icon heuristic walks it (golang.org/x/net/html): a node has a type,
 * a tag name, attributes in document order and children in document order.
 */
module Html {
  import opened Wrappers

  datatype NodeType = ErrorNode | TextNode | DocumentNode | ElementNode | CommentNode | DoctypeNode | RawNode

  datatype Attribute = Attribute(key: string, val: string)

  datatype Node = Node(kind: NodeType, data: string, attrs: seq<Attribute>, children: seq<Node>)

  /** An element node with the given tag. */
  predicate IsElement(n: Node, name: string) {
    n.kind == ElementNode && n.data == name
  }

  /**
   * The value the attribute loop of findIcons leaves for a key: that of the last attribute with
   * the key, or "" when there is none.
   */
  function LastValue(attrs: seq<Attribute>, key: string): string
  {
    if attrs == [] then ""
    else if attrs[|attrs| - 1].key == key then attrs[|attrs| - 1].val
    else LastValue(attrs[..|attrs| - 1], key)
  }

  /** Without an attribute with the key the value is "". */
  lemma {:induction false} LastValueAbsent(attrs: seq<Attribute>, key: string)
    requires forall k :: 0 <= k < |attrs| ==> attrs[k].key != key
    ensures LastValue(attrs, key) == ""
  {
    if attrs != [] {
      var n := |attrs| - 1;
      assert forall k :: 0 <= k < n ==> attrs[..n][k] == attrs[k];
      LastValueAbsent(attrs[..n], key);
    }
  }

  /** The attribute with the key that no later attribute with the key follows gives the value. */
  lemma {:induction false} LastValueWins(attrs: seq<Attribute>, key: string, k: nat)
    requires k < |attrs| && attrs[k].key == key
    requires forall j :: k < j < |attrs| ==> attrs[j].key != key
    ensures LastValue(attrs, key) == attrs[k].val
  {
    var n := |attrs| - 1;
    if k < n {
      assert forall j :: k < j < n ==> attrs[..n][j] == attrs[j];
      LastValueWins(attrs[..n], key, k);
    }
  }

  /**
   * Where findChild stops: the index of the first direct child that is an element with the given
   * tag, or the number of children when there is none. Deeper descendants are never considered.
   */
  function ChildIndex(children: seq<Node>, name: string): (r: nat)
    ensures r <= |children|
    ensures forall j :: 0 <= j < r ==> !IsElement(children[j], name)
    ensures r < |children| ==> IsElement(children[r], name)
  {
    if children == [] || IsElement(children[0], name) then 0
    else 1 + ChildIndex(children[1..], name)
  }

  /** What findChild returns: the child at ChildIndex, or nil. */
  function ChildNamed(children: seq<Node>, name: string): Option<Node>
  {
    var i := ChildIndex(children, name);
    if i < |children| then Some(children[i]) else None
  }

  /** findChild: scan the children in order and return the first element with the tag. */
  method FindChild(doc: Node, name: string) returns (child: Option<Node>)
    ensures child == ChildNamed(doc.children, name)
  {
    for i := 0 to |doc.children|
      invariant forall j :: 0 <= j < i ==> !IsElement(doc.children[j], name)
    {
      if doc.children[i].kind == ElementNode && doc.children[i].data == name {
        return Some(doc.children[i]);
      }
    }
    return None;
  }
}
